/** `extractFeatureFromJson`: from the response text to at most one event.

    The JSON text grammar is abstracted: a `Parser` maps text to a JSON value,
    or to `None` when the text is not JSON. Inside the method's `try` block a
    thrown `JSONException` is a `Failure`, a normal `return null` is
    `Success(None)` and a constructed event is `Success(Some(e))`. */
module Extraction {
  import opened Wrappers
  import opened JavaTypes
  import opened Json
  import opened Events

  type Parser = string -> Option<Json>

  /** `new JSONObject(text)`: the text must parse, and to an object. */
  function ParseObject(text: string, parse: Parser): (r: Result<map<string, Json>, JsonError>)
    ensures r.Success? <==> parse(text).Some? && parse(text).value.JObject?
    ensures r.Success? ==> parse(text) == Some(JObject(r.value))
  {
    match parse(text)
    case None => Failure(Unparsable)
    case Some(JObject(root)) => Success(root)
    case Some(_) => Failure(NotAnObject)
  }

  /** The fixed path from the root object: `features[0].properties` and its
      `title`, `time` and `tsunami` members. */
  function ReadRoot(root: map<string, Json>): Result<Option<Event>, JsonError> {
    var features :- GetArray(root, "features");
    if |features| == 0 then Success(None)
    else
      var first :- ElementObject(features, 0);
      var properties :- GetObject(first, "properties");
      var title :- GetString(properties, "title");
      var time :- GetLong(properties, "time");
      var tsunami :- GetInt(properties, "tsunami");
      Success(Some(Event(title, time, tsunami)))
  }

  /** The body of the `try` block. */
  function TryExtract(text: string, parse: Parser): Result<Option<Event>, JsonError> {
    var root :- ParseObject(text, parse);
    ReadRoot(root)
  }

  /** `extractFeatureFromJson`: an empty or null response is never parsed, and
      every `JSONException` is caught and turned into no event. */
  function ExtractFeatureFromJson(response: JavaString, parse: Parser): (r: Option<Event>)
    ensures IsEmpty(response) ==> r.None?
    ensures r.Some? ==> ParseObject(response.value, parse).Success?
    ensures r.Some? ==> Describes(ParseObject(response.value, parse).value, r.value)
  {
    if IsEmpty(response) then None
    else
      match TryExtract(response.value, parse)
      case Success(earthquake) => earthquake
      case Failure(_) => None
  }

  // ---------------------------------------------------------------------
  // Reference definitions: the document shapes, stated declaratively.

  /** The root holds a `features` array with no elements. */
  predicate NoFeatures(root: map<string, Json>) {
    "features" in root && root["features"] == JArray([])
  }

  /** The root's first feature carries exactly the fields of `e`. */
  predicate Describes(root: map<string, Json>, e: Event) {
    && "features" in root
    && root["features"].JArray?
    && |root["features"].elems| > 0
    && var first := root["features"].elems[0];
    && first.JObject?
    && "properties" in first.members
    && var properties := first.members["properties"];
    && properties.JObject?
    && "title" in properties.members
    && properties.members["title"] == JString(e.title)
    && "time" in properties.members
    && properties.members["time"] == JInt(e.time)
    && "tsunami" in properties.members
    && properties.members["tsunami"] == JInt(e.tsunamiAlert)
  }

  // ---------------------------------------------------------------------
  // ReadRoot against the reference definitions.

  lemma ReadRootSound(root: map<string, Json>)
    ensures ReadRoot(root) == Success(None) ==> NoFeatures(root)
    ensures ReadRoot(root).Success? && ReadRoot(root).value.Some? ==> Describes(root, ReadRoot(root).value.value)
  {
  }

  /** A root yields the event `e` exactly when it describes `e`. */
  lemma ReadRootFindsExactly(root: map<string, Json>, e: Event)
    ensures ReadRoot(root) == Success(Some(e)) <==> Describes(root, e)
  {
  }

  /** An empty `features` array, and only that, ends the `try` block without an
      event and without an exception. */
  lemma ReadRootEmptyIff(root: map<string, Json>)
    ensures ReadRoot(root) == Success(None) <==> NoFeatures(root)
  {
  }

  /** A `JSONException` is raised exactly when the root has neither an empty
      `features` array nor a first feature of the expected shape. */
  lemma ReadRootFailsIff(root: map<string, Json>)
    ensures ReadRoot(root).Failure? <==> !NoFeatures(root) && forall e :: !Describes(root, e)
  {
    ReadRootEmptyIff(root);
    forall e | Describes(root, e)
      ensures ReadRoot(root) == Success(Some(e))
    {
      ReadRootFindsExactly(root, e);
    }
    if ReadRoot(root).Success? && ReadRoot(root).value.Some? {
      ReadRootFindsExactly(root, ReadRoot(root).value.value);
    }
  }

  // ---------------------------------------------------------------------
  // The extraction's failure paths and its success path.

  /** A null or empty response yields no event whatever the parser would have
      said: the parser is never consulted. */
  lemma EmptyResponseSkipsParse(response: JavaString, parse1: Parser, parse2: Parser)
    requires IsEmpty(response)
    ensures ExtractFeatureFromJson(response, parse1) == ExtractFeatureFromJson(response, parse2) == None
  {
  }

  /** Text that is not JSON, or is JSON but not an object, yields no event. */
  lemma UnparsableResponseYieldsNone(text: string, parse: Parser)
    requires parse(text).None? || !parse(text).value.JObject?
    ensures ExtractFeatureFromJson(Some(text), parse) == None
  {
  }

  /** A missing, non-array or empty `features` member yields no event. */
  lemma NoUsableFeaturesYieldsNone(text: string, parse: Parser, root: map<string, Json>)
    requires parse(text) == Some(JObject(root))
    requires "features" !in root || !root["features"].JArray? || root["features"].elems == []
    ensures ExtractFeatureFromJson(Some(text), parse) == None
  {
  }

  /** A first feature of the wrong shape yields no event: not an object, no
      `properties` object, or a `title`, `time` or `tsunami` member that is
      missing or of the wrong type. */
  lemma MalformedFirstFeatureYieldsNone(text: string, parse: Parser, root: map<string, Json>, first: Json)
    requires parse(text) == Some(JObject(root))
    requires "features" in root && root["features"].JArray?
    requires |root["features"].elems| > 0 && root["features"].elems[0] == first
    requires
      || !first.JObject?
      || GetObject(first.members, "properties").Failure?
      || GetString(first.members["properties"].members, "title").Failure?
      || GetLong(first.members["properties"].members, "time").Failure?
      || GetInt(first.members["properties"].members, "tsunami").Failure?
    ensures ExtractFeatureFromJson(Some(text), parse) == None
  {
  }

  /** Extraction succeeds with `e` exactly when the response is non-empty and
      parses to an object whose first feature carries the fields of `e`. */
  lemma ExtractFindsExactly(response: JavaString, parse: Parser, e: Event)
    ensures ExtractFeatureFromJson(response, parse) == Some(e) <==>
      && !IsEmpty(response)
      && ParseObject(response.value, parse).Success?
      && Describes(ParseObject(response.value, parse).value, e)
  {
  }

  /** Only the first feature is consulted: what follows it in `features` never
      changes the result. */
  lemma OnlyFirstFeatureMatters(root: map<string, Json>, features1: seq<Json>, features2: seq<Json>)
    requires |features1| > 0 && |features2| > 0 && features1[0] == features2[0]
    ensures ReadRoot(root["features" := JArray(features1)]) == ReadRoot(root["features" := JArray(features2)])
  {
  }
}
