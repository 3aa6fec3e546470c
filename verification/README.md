# Tsunami: a Dafny model of the fetch, extract and display cycle

The Tsunami app is a single Android activity. On launch it runs one background
task. That background task builds a fixed USGS query URL, issues one HTTP GET and reads the
response body. It then parses the body as JSON and extracts the first
earthquake's `title`, `time` and `tsunami` flag into an `Event`. On the UI
thread, the event (if any) is shown in three text views, with the tsunami flag
mapped to one of three alert strings. Every caught exception is logged and
turned into an empty response or a `null` event. A non-200 status, an empty
response and an empty `features` array are dropped the same way, without
logging. A `null` event leaves the screen untouched.

This project models that decision logic as pure Dafny functions over abstract
inputs:

- `Wrappers`: `Option` (a Java reference that may be null) and `Result` (a call that may throw).
- `JavaTypes`: Java `int`/`long` as range-restricted integers, a nullable string, and `TextUtils.isEmpty`.
- `Json`: a JSON document as an algebraic value. Also org.json's typed accessors (`getJSONArray`, `getJSONObject`, `getString`, `getLong`, `getInt`) as strict lookups that either succeed or fail with a reason.
- `Events`: the `Event` record (title, time in epoch milliseconds, alert flag).
- `Presentation`: `getTsunamiAlertString`, with the string resources as the enum `AlertNo | AlertYes | AlertNotAvailable`.
- `Extraction`: `extractFeatureFromJson`. The JSON parser is a parameter `string -> Option<Json>`, where `None` means the text is not JSON. `Describes(root, e)` is an independent, declarative statement of "the first feature's properties carry exactly `e`". The lemmas prove that extraction returns `e` exactly when `Describes` holds.
- `Fetch`: `makeHttpRequest` and `readFromStream`. The network is an `Exchange`: either a connection failure, or a reply with a status code, a body stream outcome and whether closing the stream throws.
- `Activity`: `doInBackground`, `onPostExecute` and the whole launch cycle. The screen is a value: `Placeholder`, or the three fields shown.

The properties proved are:

- An empty or null response yields no event for every parser.
- Unparsable text, or text that is not an object, yields no event.
- A missing, mistyped or empty `features` array yields no event.
- A first feature of the wrong shape yields no event.
- Only the first feature is consulted.
- On success the event's fields are exactly the first feature's `properties.title`, `properties.time` and `properties.tsunami`.
- The alert mapping is total and three-way.
- Only status 200 with a fully read body and a clean close delivers text. Every other fetch outcome gives `""`, hence no event, hence an unchanged screen.

Two details of the code are easy to miss, and the model follows the code on both:

- A failing `inputStream.close()` in the `finally` block of `makeHttpRequest` does escape it as an `IOException`. `doInBackground` catches it, so the response stays `""`. The model keeps that two-level path: `MakeHttpRequest` returns a `Result` and `ResponseText` collapses it.
- An empty `features` array ends extraction with `null` and no exception. A missing or mistyped member ends it with a caught `JSONException`. Both give no event, but the model keeps them apart as `Success(None)` and `Failure(reason)`.

## Model

| member | source | states |
|---|---|---|
| Presentation.TsunamiAlertString | app/src/main/java/com/example/tsunami/MainActivity.java:62-70 | total over Java `int`: 0 gives alert_no, 1 gives alert_yes, and every other value, negatives included, gives alert_not_available (each as an if-and-only-if) |
| Presentation.AlertMessageDeterminesFlag | app/src/main/java/com/example/tsunami/MainActivity.java:62-70 | a corollary of the mapping: two flags with the same message are equal unless the message is "not available", and differing flags sharing a message both lie outside {0, 1} |
| Json.GetArray | app/src/main/java/com/example/tsunami/MainActivity.java:172 | `getJSONArray("features")` succeeds exactly when the member exists and is an array, and returns its elements |
| Json.ElementObject | app/src/main/java/com/example/tsunami/MainActivity.java:177 | `getJSONObject(0)` succeeds exactly when index 0 exists and holds an object, and returns its members |
| Json.GetObject | app/src/main/java/com/example/tsunami/MainActivity.java:178 | `getJSONObject("properties")` succeeds exactly when the member exists and is an object |
| Json.GetString | app/src/main/java/com/example/tsunami/MainActivity.java:181 | `getString("title")` succeeds exactly when the member exists and is a string, and returns that string |
| Json.GetLong | app/src/main/java/com/example/tsunami/MainActivity.java:182 | `getLong("time")` succeeds exactly when the member is an integer in the Java `long` range, and returns it |
| Json.GetInt | app/src/main/java/com/example/tsunami/MainActivity.java:183 | `getInt("tsunami")` succeeds exactly when the member is an integer in the Java `int` range, and returns it |
| Extraction.ParseObject | app/src/main/java/com/example/tsunami/MainActivity.java:171 | `new JSONObject(text)` succeeds exactly when the text parses to a JSON object, and yields that object's members |
| Extraction.ExtractFeatureFromJson | app/src/main/java/com/example/tsunami/MainActivity.java:164-191 | a null or empty response gives no event; any event returned comes from a response that parses to an object describing it |
| Extraction.ReadRootSound | app/src/main/java/com/example/tsunami/MainActivity.java:172-186 | ending the try block with `null` means `features` is an empty array; ending it with an event means the root describes that event |
| Extraction.ReadRootFindsExactly | app/src/main/java/com/example/tsunami/MainActivity.java:172-185 | the try block yields event `e` if and only if the first feature's properties carry exactly `e`'s title, time and flag |
| Extraction.ReadRootEmptyIff | app/src/main/java/com/example/tsunami/MainActivity.java:172-186 | the try block returns `null` without an exception if and only if `features` is an empty array |
| Extraction.ReadRootFailsIff | app/src/main/java/com/example/tsunami/MainActivity.java:172-190 | a `JSONException` is raised if and only if `features` is neither an empty array nor one whose first feature has the expected shape |
| Extraction.EmptyResponseSkipsParse | app/src/main/java/com/example/tsunami/MainActivity.java:166-168 | a null or empty response yields no event, the same for every parser, so the parser is never consulted |
| Extraction.UnparsableResponseYieldsNone | app/src/main/java/com/example/tsunami/MainActivity.java:171-190 | text that is not JSON, or not a JSON object, yields no event and no exception leaves the function |
| Extraction.NoUsableFeaturesYieldsNone | app/src/main/java/com/example/tsunami/MainActivity.java:172-190 | a missing, non-array or empty `features` member yields no event |
| Extraction.MalformedFirstFeatureYieldsNone | app/src/main/java/com/example/tsunami/MainActivity.java:177-190 | a first feature that is not an object, lacks a `properties` object, or has a missing or mistyped `title`, `time` or `tsunami` yields no event |
| Extraction.ExtractFindsExactly | app/src/main/java/com/example/tsunami/MainActivity.java:164-191 | extraction returns `e` if and only if the response is non-empty and parses to an object whose first feature carries exactly `e` |
| Extraction.OnlyFirstFeatureMatters | app/src/main/java/com/example/tsunami/MainActivity.java:175-177 | two `features` arrays with the same first element give the same result, whatever follows it |
| Fetch.FlattenLength | app/src/main/java/com/example/tsunami/MainActivity.java:154-161 | the body read is exactly as long as all its lines together: no separator is added and nothing is lost |
| Fetch.FlattenEmptyIff | app/src/main/java/com/example/tsunami/MainActivity.java:154-161 | the body read is empty if and only if every line read is empty |
| Fetch.ReadFromStream | app/src/main/java/com/example/tsunami/MainActivity.java:147-162 | the loop appends the lines in order, giving their concatenation without separators |
| Fetch.MakeHttpRequest | app/src/main/java/com/example/tsunami/MainActivity.java:113-145 | a null URL gives `""`; an `IOException` escapes exactly when an opened stream fails to close; a non-empty result means status 200 and a fully read body, and equals that body |
| Fetch.NonOkStatusGivesEmpty | app/src/main/java/com/example/tsunami/MainActivity.java:130-134 | any status other than 200 gives `""` and cannot throw |
| JavaTypes.IsEmpty | app/src/main/java/com/example/tsunami/MainActivity.java:166 | `TextUtils.isEmpty` holds exactly for a null reference and for the string of length zero |
| Activity.UpdateUi | app/src/main/java/com/example/tsunami/MainActivity.java:45-55 | the title view gets the event's title, the date view is fed the raw `time` milliseconds, and the alert view gets the alert message for the event's flag |
| Activity.FetchCycle | app/src/main/java/com/example/tsunami/MainActivity.java:41-42 | one launch runs the background task once and posts its result: the screen stays as it was unless the body was delivered, and otherwise shows exactly the event found, if any |
| Activity.OnPostExecute | app/src/main/java/com/example/tsunami/MainActivity.java:94-100 | no event leaves the screen unchanged; an event shows its title, its time and the alert message for its flag |
| Activity.ResponseText | app/src/main/java/com/example/tsunami/MainActivity.java:82-87 | the response handed to extraction is the delivered body when status 200, a full read and a clean close all hold, and `""` otherwise |
| Activity.DoInBackground | app/src/main/java/com/example/tsunami/MainActivity.java:76-91 | any event the background task returns comes from a delivered body that parses to an object describing it |
| Activity.FailedFetchLeavesScreen | app/src/main/java/com/example/tsunami/MainActivity.java:82-97 | a missing URL, a connection failure, a non-200 status, a failed read or a failed close gives `""`, no event and an unchanged screen |
| Activity.EmptyBodyLeavesScreen | app/src/main/java/com/example/tsunami/MainActivity.java:164-168 | a delivered body made only of empty lines never reaches the parser and leaves the screen unchanged |
| Activity.BackgroundFindsExactly | app/src/main/java/com/example/tsunami/MainActivity.java:76-91 | the background task yields `e` if and only if a non-empty body is delivered and parses to an object whose first feature carries exactly `e` |
| Activity.CycleShowsOnlyFoundEvent | app/src/main/java/com/example/tsunami/MainActivity.java:94-100 | the screen changes only when the background task found an event, and then shows exactly that event |
| Activity.FijiScenario | app/src/main/java/com/example/tsunami/MainActivity.java:164-185 | the one-feature Fiji document gives the event ("M 6.8 - Fiji", 1346236502000, 1) and the "alert issued" message |
| Activity.EmptyFeaturesScenario | app/src/main/java/com/example/tsunami/MainActivity.java:175 | `{"features":[]}` leaves the placeholder screen in place |
| Activity.NotFoundScenario | app/src/main/java/com/example/tsunami/MainActivity.java:131 | a 404 reply gives `""` and leaves the placeholder screen in place |
| Activity.UnknownAlertScenario | app/src/main/java/com/example/tsunami/MainActivity.java:45-70 | a response whose first feature has `tsunami` 2 gives that event, and the screen shows "alert status not available" |

## Left out

- The JSON text grammar and org.json's parser: the parser is a parameter, and any function from text to an optional JSON value can be supplied.
- Json.GetString: strict. org.json also converts a non-string member (a number, `true`, JSON null) to its text; here only a JSON string succeeds.
- Json.GetLong: strict. org.json also accepts numeric strings and truncates fractional numbers; here only an integer literal in the `long` range succeeds.
- Json.GetInt: strict. org.json also accepts numeric strings, truncates fractional numbers and wraps out-of-range integers to 32 bits; here only an integer literal in the `int` range succeeds.
- `createUrl`: checking a URL string with `java.net.URL` is a library call. The URL is an input that is present or absent.
- Connection set-up: `openConnection`, the 10 s read and 15 s connect timeouts, and `disconnect` are I/O plumbing. Their failures are folded into `ConnectFailure` and a stream outcome.
- `readFromStream`'s line splitting: how `BufferedReader.readLine` divides the bytes into lines, and UTF-8 decoding, are library behaviour. The stream is given as its sequence of lines.
- `getDateString`: `SimpleDateFormat` with the device locale and time zone. The screen keeps the raw millisecond timestamp the date view is formatted from.
- The text of the three alert strings lives in resources outside this model; only their identities are modelled.
- Threading: the `AsyncTask` hand-off between the background and UI threads is concurrency plumbing. The cycle is modelled as the sequential composition it amounts to.
- Logging of caught exceptions (`Log.e`) has no effect on results and is not modelled.
