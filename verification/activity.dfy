/** The activity's single fetch cycle: `doInBackground` fetches and extracts,
    `onPostExecute` hands the result to the screen. The screen is the state of
    the three text views; the date view is represented by the timestamp it is
    formatted from. */
module Activity {
  import opened Wrappers
  import opened JavaTypes
  import opened Json
  import opened Events
  import opened Presentation
  import opened Extraction
  import opened Fetch

  datatype Screen =
    | Placeholder
    | Showing(titleView: string, dateView: Int64, alertView: AlertMessage)

  /** `updateUI`: fills the `title`, `date` and `tsunami_alert` views. */
  function UpdateUi(earthquake: Event): (s: Screen)
    ensures s.Showing?
    ensures s.titleView == earthquake.title
    ensures s.dateView == earthquake.time
    ensures s.alertView == AlertNotAvailable <==> earthquake.tsunamiAlert !in {0, 1}
    ensures s.alertView == TsunamiAlertString(earthquake.tsunamiAlert)
  {
    Showing(earthquake.title, earthquake.time, TsunamiAlertString(earthquake.tsunamiAlert))
  }

  /** `onPostExecute`: no event, no update. */
  function OnPostExecute(screen: Screen, earthquake: Option<Event>): (r: Screen)
    ensures earthquake.None? ==> r == screen
    ensures earthquake.Some? ==> r.Showing? && r.titleView == earthquake.value.title
    ensures earthquake.Some? ==> r.Showing? && r.dateView == earthquake.value.time
    ensures earthquake.Some? ==> r.Showing? && r.alertView == TsunamiAlertString(earthquake.value.tsunamiAlert)
  {
    match earthquake
    case None => screen
    case Some(e) => UpdateUi(e)
  }

  /** The response `doInBackground` passes on: an `IOException` out of
      `makeHttpRequest` leaves it at its initial `""`. */
  function ResponseText(url: Option<Url>, exchange: Exchange): (text: string)
    ensures text == (if BodyDelivered(url, exchange) then Flatten(exchange.stream.lines) else "")
  {
    match MakeHttpRequest(url, exchange)
    case Success(body) => body
    case Failure(_) => ""
  }

  function DoInBackground(url: Option<Url>, exchange: Exchange, parse: Parser): (r: Option<Event>)
    ensures r.Some? ==> BodyDelivered(url, exchange)
    ensures r.Some? ==> ParseObject(Flatten(exchange.stream.lines), parse).Success?
    ensures r.Some? ==> Describes(ParseObject(Flatten(exchange.stream.lines), parse).value, r.value)
  {
    ExtractFeatureFromJson(Some(ResponseText(url, exchange)), parse)
  }

  /** One launch: `onCreate` executes the background task once, and its result
      is posted to `onPostExecute`. */
  function FetchCycle(screen: Screen, url: Option<Url>, exchange: Exchange, parse: Parser): (r: Screen)
    ensures !BodyDelivered(url, exchange) ==> r == screen
    ensures r != screen ==> r.Showing? && DoInBackground(url, exchange, parse).Some?
    ensures DoInBackground(url, exchange, parse).Some? ==> r == UpdateUi(DoInBackground(url, exchange, parse).value)
  {
    OnPostExecute(screen, DoInBackground(url, exchange, parse))
  }

  /** Every fetch failure collapses to an empty response, hence to no event,
      hence to an untouched screen: a missing URL, a connection failure, a
      status other than 200, a failed body read or a failed close. */
  lemma FailedFetchLeavesScreen(screen: Screen, url: Option<Url>, exchange: Exchange, parse: Parser)
    requires !BodyDelivered(url, exchange)
    ensures ResponseText(url, exchange) == ""
    ensures DoInBackground(url, exchange, parse) == None
    ensures FetchCycle(screen, url, exchange, parse) == screen
  {
  }

  /** A delivered body that is empty (every line empty) is never parsed. */
  lemma EmptyBodyLeavesScreen(screen: Screen, url: Option<Url>, exchange: Exchange, parse: Parser)
    requires BodyDelivered(url, exchange)
    requires forall k :: 0 <= k < |exchange.stream.lines| ==> exchange.stream.lines[k] == ""
    ensures FetchCycle(screen, url, exchange, parse) == screen
  {
    FlattenEmptyIff(exchange.stream.lines);
  }

  /** The background task yields `e` exactly when the body is delivered, is
      non-empty, and parses to an object whose first feature carries `e`. */
  lemma BackgroundFindsExactly(url: Option<Url>, exchange: Exchange, parse: Parser, e: Event)
    ensures DoInBackground(url, exchange, parse) == Some(e) <==>
      && BodyDelivered(url, exchange)
      && Flatten(exchange.stream.lines) != ""
      && ParseObject(Flatten(exchange.stream.lines), parse).Success?
      && Describes(ParseObject(Flatten(exchange.stream.lines), parse).value, e)
  {
  }

  /** The screen changes only through a found event, and then shows that event. */
  lemma CycleShowsOnlyFoundEvent(screen: Screen, url: Option<Url>, exchange: Exchange, parse: Parser)
    ensures FetchCycle(screen, url, exchange, parse) != screen ==> DoInBackground(url, exchange, parse).Some?
    ensures DoInBackground(url, exchange, parse).Some? ==>
      FetchCycle(screen, url, exchange, parse) == UpdateUi(DoInBackground(url, exchange, parse).value)
  {
  }

  // ---------------------------------------------------------------------
  // End-to-end scenarios with a parser that reads the sample text as the
  // document it spells.

  const FIJI_TEXT := "{\"features\":[{\"properties\":{\"title\":\"M 6.8 - Fiji\",\"time\":1346236502000,\"tsunami\":1}}]}"

  const FIJI_DOC := JObject(map["features" := JArray([JObject(map["properties" := JObject(map[
    "title" := JString("M 6.8 - Fiji"), "time" := JInt(1346236502000), "tsunami" := JInt(1)])])])])

  lemma FijiScenario(parse: Parser)
    requires parse(FIJI_TEXT) == Some(FIJI_DOC)
    ensures DoInBackground(Some(Url(USGS_REQUEST_URL)), Reply(200, Lines([FIJI_TEXT]), false), parse)
      == Some(Event("M 6.8 - Fiji", 1346236502000, 1))
    ensures FetchCycle(Placeholder, Some(Url(USGS_REQUEST_URL)), Reply(200, Lines([FIJI_TEXT]), false), parse)
      == Showing("M 6.8 - Fiji", 1346236502000, AlertYes)
  {
    assert Flatten([FIJI_TEXT]) == FIJI_TEXT;
  }

  lemma EmptyFeaturesScenario(parse: Parser)
    requires parse("{\"features\":[]}") == Some(JObject(map["features" := JArray([])]))
    ensures FetchCycle(Placeholder, Some(Url(USGS_REQUEST_URL)), Reply(200, Lines(["{\"features\":[]}"]), false), parse)
      == Placeholder
  {
    assert Flatten(["{\"features\":[]}"]) == "{\"features\":[]}";
  }

  lemma NotFoundScenario(parse: Parser)
    ensures ResponseText(Some(Url(USGS_REQUEST_URL)), Reply(404, Lines(["Not Found"]), false)) == ""
    ensures FetchCycle(Placeholder, Some(Url(USGS_REQUEST_URL)), Reply(404, Lines(["Not Found"]), false), parse)
      == Placeholder
  {
  }

  const UNKNOWN_ALERT_TEXT := "{\"features\":[{\"properties\":{\"title\":\"x\",\"time\":5,\"tsunami\":2}}]}"

  const UNKNOWN_ALERT_DOC := JObject(map["features" := JArray([JObject(map["properties" := JObject(map[
    "title" := JString("x"), "time" := JInt(5), "tsunami" := JInt(2)])])])])

  lemma UnknownAlertScenario(parse: Parser)
    requires parse(UNKNOWN_ALERT_TEXT) == Some(UNKNOWN_ALERT_DOC)
    ensures DoInBackground(Some(Url(USGS_REQUEST_URL)), Reply(200, Lines([UNKNOWN_ALERT_TEXT]), false), parse)
      == Some(Event("x", 5, 2))
    ensures FetchCycle(Placeholder, Some(Url(USGS_REQUEST_URL)), Reply(200, Lines([UNKNOWN_ALERT_TEXT]), false), parse)
      == Showing("x", 5, AlertNotAvailable)
  {
    assert Flatten([UNKNOWN_ALERT_TEXT]) == UNKNOWN_ALERT_TEXT;
  }
}
