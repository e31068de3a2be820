/** The `logi_master_weather_tie` tool (src/tools/weatherTie.js): a fixed
    weather plan for a route and a parsed departure date. */
module WeatherTie {
  import opened Base
  import opened JsValues
  import opened Errors
  import opened Strings
  import opened ToolContext

  const Name: string := "logi_master_weather_tie"
  const Description: string := "Weather-tied plan snapshot"
  const InputSchema: JsValue :=
    ObjectSchema([("route", "string"), ("departure_date", "string")],
                 ["route", "departure_date"])
  const RequiredMessage: string := "route/departure_date required"
  /** The message `toIsoUtc` (src/utils/time.js) throws on an invalid date. */
  const InvalidDateMessage: string := "Invalid date value supplied"
  const Line: string := "🌤️ Weather-tie: LOW risk, 3-day optimal window from T+1"

  datatype Weather = Weather(stormRisk: Number, seaStateM: string, windKt: string)

  datatype WeatherJson = WeatherJson(
    ts: string,
    route: string,
    departureUtc: string,
    weather: Weather,
    risk: string,
    recommendation: string,
    optimalWindowDays: nat,
    backup: string)

  /** `toIsoUtc(value)` on the clamped date string: a plain `Error` (no
      code) when the engine cannot parse it. */
  function ToIsoUtc(date: string, parseDate: JsValue -> Option<string>): (r: Result<string>)
    ensures r.Ok? <==> parseDate(Str(date)).Some?
    ensures r.Ok? ==> r.value == parseDate(Str(date)).value
    ensures r.Err? ==> r.error == PlainError("Error", InvalidDateMessage) && r.error.code.None?
  {
    match parseDate(Str(date))
    case Some(iso) => Ok(iso)
    case None => Err(PlainError("Error", InvalidDateMessage))
  }

  /** The handler: both fields are required after clamping (route to 120
      characters, date to 40) and checked before the date is parsed. */
  function Handle(args: JsValue, ctx: Context, world: World): (r: Result<Output<WeatherJson>>)
    ensures var route := ClampString(Prop(args, "route"), 120);
            var date := ClampString(Prop(args, "departure_date"), 40);
            (route == "" || date == "") ==> r == Err(McpError(BadInput, RequiredMessage))
    ensures var route := ClampString(Prop(args, "route"), 120);
            var date := ClampString(Prop(args, "departure_date"), 40);
            route != "" && date != "" && world.parseDate(Str(date)).None? ==>
              r == Err(PlainError("Error", InvalidDateMessage))
    ensures var route := ClampString(Prop(args, "route"), 120);
            var date := ClampString(Prop(args, "departure_date"), 40);
            (r.Ok? <==> route != "" && date != "" && world.parseDate(Str(date)).Some? && ctx.now.Some?)
    ensures r.Ok? ==>
              var j := r.value.json;
              && j.ts == ctx.now.value
              && j.route == ClampString(Prop(args, "route"), 120) && |j.route| <= 120
              && j.departureUtc == world.parseDate(Str(ClampString(Prop(args, "departure_date"), 40))).value
              && j.weather == Weather(Decimal(15, 2), "2-3", "12-18")
              && j.risk == "LOW" && j.recommendation == "PROCEED"
              && j.optimalWindowDays == 3 && j.backup == "delay_48h"
              && r.value.text == [Lit(Line)]
  {
    var route := ClampString(Prop(args, "route"), 120);
    var date := ClampString(Prop(args, "departure_date"), 40);
    :- AssertOrThrow(route != "" && date != "", BadInput, RequiredMessage);
    var departureUtc :- ToIsoUtc(date, world.parseDate);
    var ts :- Now(ctx);
    var json := WeatherJson(ts, route, departureUtc, Weather(Decimal(15, 2), "2-3", "12-18"),
                            "LOW", "PROCEED", 3, "delay_48h");
    Ok(Output(json, [Lit(Line)]))
  }
}
