/** The query parameters of one report request (`get_url_params`). */
module RequestParams {
  import opened Wrappers
  import opened Calendar

  /**
   * The configuration options the stream reads; an absent option is `None`. The start and end
   * dates are given already parsed, as day ordinals.
   */
  datatype Config = Config(
    startDate: DateOrdinal,
    endDate: DateOrdinal,
    additionalMetrics: Option<seq<string>>,
    attributionType: Option<string>,
    attributionSource: Option<string>,
    currency: Option<string>)

  const DefaultAttributionType := "click"
  const DefaultAttributionSource := "dynamic"

  /** `config.get(key, default)`. */
  function GetOr(o: Option<string>, default: string): (r: string)
    ensures o.Some? ==> r == o.value
    ensures o.None? ==> r == default
  {
    match o
    case Some(v) => v
    case None => default
  }

  /** Python truthiness of an optional string: present and non-empty. */
  predicate Truthy(o: Option<string>)
  {
    o.Some? && o.value != ""
  }

  /** `",".join(xs)`. */
  function Join(xs: seq<string>): (r: string)
    ensures |xs| >= 1 ==> xs[0] <= r
    ensures (forall i :: 0 <= i < |xs| ==> ',' !in xs[i]) ==> (',' in r <==> |xs| >= 2)
  {
    if |xs| == 0 then ""
    else if |xs| == 1 then xs[0]
    else xs[0] + "," + Join(xs[1..])
  }

  /** `s.split(",")`: the pieces between commas, always at least one. */
  function Split(s: string): (r: seq<string>)
    ensures |r| >= 1
  {
    if |s| == 0 then [""]
    else
      var rest := Split(s[1..]);
      if s[0] == ',' then [""] + rest else [[s[0]] + rest[0]] + rest[1..]
  }

  lemma {:induction false} SplitNoComma(a: string)
    requires ',' !in a
    ensures Split(a) == [a]
  {
    if |a| > 0 {
      SplitNoComma(a[1..]);
      assert [a[0]] + a[1..] == a;
    }
  }

  lemma {:induction false} SplitAfterPiece(a: string, t: string)
    requires ',' !in a
    ensures Split(a + "," + t) == [a] + Split(t)
  {
    if |a| == 0 {
      assert a + "," + t == [','] + t;
      assert (a + "," + t)[1..] == t;
    } else {
      assert (a + "," + t)[1..] == a[1..] + "," + t;
      SplitAfterPiece(a[1..], t);
      assert [a[0]] + a[1..] == a;
    }
  }

  /** Splitting a join gives back the list, for a non-empty list of comma-free names. */
  lemma {:induction false} SplitJoin(xs: seq<string>)
    requires |xs| >= 1
    requires forall i :: 0 <= i < |xs| ==> ',' !in xs[i]
    ensures Split(Join(xs)) == xs
  {
    if |xs| == 1 {
      SplitNoComma(xs[0]);
    } else {
      SplitJoin(xs[1..]);
      SplitAfterPiece(xs[0], Join(xs[1..]));
    }
  }

  /** The keys every request carries. */
  const BaseKeys: set<string> := {"date_period", "dimensions", "metrics", "attribution_type", "attribution_source"}

  /** The parameter map for the page whose token is the day `token`. */
  function UrlParams(token: DateOrdinal, dimensions: seq<string>, metrics: seq<string>, config: Config)
    : (r: map<string, string>)
    ensures r.Keys == BaseKeys + (if Truthy(config.currency) then {"currency"} else {})
    ensures "currency" in r <==> Truthy(config.currency)
    ensures r["date_period"] == DateText(token) + ":" + DateText(token)
    ensures r["dimensions"] == Join(dimensions) && r["metrics"] == Join(metrics)
    ensures r["attribution_type"] == GetOr(config.attributionType, DefaultAttributionType)
    ensures r["attribution_source"] == GetOr(config.attributionSource, DefaultAttributionSource)
    ensures "currency" in r ==> r["currency"] == config.currency.value
  {
    var params := map[
      "date_period" := DateText(token) + ":" + DateText(token),
      "dimensions" := Join(dimensions),
      "metrics" := Join(metrics),
      "attribution_type" := GetOr(config.attributionType, DefaultAttributionType),
      "attribution_source" := GetOr(config.attributionSource, DefaultAttributionSource)];
    if Truthy(config.currency) then params["currency" := config.currency.value] else params
  }

  /** The period is a single day: both halves are that day's `YYYY-MM-DD` text. */
  lemma DatePeriodIsOneDay(token: DateOrdinal, dimensions: seq<string>, metrics: seq<string>, config: Config)
    ensures var p := UrlParams(token, dimensions, metrics, config)["date_period"];
      |p| == 21 && p[10] == ':' && p[..10] == p[11..] == DateText(token)
      && ParseFullDate(p[..10]) == FromOrdinal(token)
  {
    var p := UrlParams(token, dimensions, metrics, config)["date_period"];
    assert p[..10] == DateText(token);
    assert p[11..] == DateText(token);
    FormatDateRoundTrip(FromOrdinal(token));
  }

  /** The `dimensions` parameter splits back into the dimension list. */
  lemma DimensionsParamRoundTrip(token: DateOrdinal, dimensions: seq<string>, metrics: seq<string>, config: Config)
    requires |dimensions| >= 1 && forall i :: 0 <= i < |dimensions| ==> ',' !in dimensions[i]
    ensures Split(UrlParams(token, dimensions, metrics, config)["dimensions"]) == dimensions
  {
    SplitJoin(dimensions);
  }

  /** Page token 2021-05-01, dimensions app and day, metric installs. */
  lemma ExampleRequest(token: DateOrdinal, config: Config)
    requires FromOrdinal(token) == Date(2021, 5, 1) && config.currency.None?
    ensures var r := UrlParams(token, ["app", "day"], ["installs"], config);
      r.Keys == BaseKeys
      && r["date_period"] == "2021-05-01:2021-05-01"
      && r["dimensions"] == "app,day" && r["metrics"] == "installs"
  {
    ExampleDayText(token);
    ExampleJoins();
    ExamplePeriodText();
  }

  lemma ExampleDayText(token: DateOrdinal)
    requires FromOrdinal(token) == Date(2021, 5, 1)
    ensures DateText(token) == "2021-05-01"
  {
    ExampleDate();
  }

  lemma ExampleJoins()
    ensures Join(["app", "day"]) == "app,day" && Join(["installs"]) == "installs"
  {
    assert ["app", "day"][1..] == ["day"];
  }

  lemma ExamplePeriodText()
    ensures "2021-05-01" + ":" + "2021-05-01" == "2021-05-01:2021-05-01"
  {
  }
}
