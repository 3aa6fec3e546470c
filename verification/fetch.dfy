/** `makeHttpRequest` and `readFromStream`, with the network abstracted.

    A connection attempt is described by an `Exchange`: either the connection,
    request or status read throws, or the server answers with a status code.
    For an answer, `stream` says what happened when the body was opened and
    read line by line, and `closeFails` whether closing the opened stream in
    the `finally` block throws. Timeouts and `disconnect` are not modelled. */
module Fetch {
  import opened Wrappers

  /** A constructed `java.net.URL`; its validation is not modelled. */
  datatype Url = Url(spec: string)

  /** The body stream of an answered request. */
  datatype StreamRead =
    | NoStream                 // `getInputStream` threw: nothing to close
    | ReadFailure              // `readLine` threw part way through
    | Lines(lines: seq<string>) // every line, without terminators

  datatype Exchange =
    | ConnectFailure
    | Reply(status: int, stream: StreamRead, closeFails: bool)

  /** An `IOException` that leaves `makeHttpRequest`. */
  datatype IoException = CloseFailed

  /** The fixed query the activity fetches: magnitude 6 and above, January to
      November 2012. */
  const USGS_REQUEST_URL := "https://earthquake.usgs.gov/fdsnws/event/1/query?format=geojson&starttime=2012-01-01&endtime=2012-12-01&minmagnitude=6"

  /** The status code `makeHttpRequest` accepts. */
  const HTTP_OK := 200

  /** The lines of a stream joined in order, with no separator. */
  function Flatten(lines: seq<string>): string {
    if |lines| == 0 then "" else lines[0] + Flatten(lines[1..])
  }

  function TotalLength(lines: seq<string>): nat {
    if |lines| == 0 then 0 else |lines[0]| + TotalLength(lines[1..])
  }

  lemma {:induction false} FlattenAppend(lines: seq<string>, line: string)
    ensures Flatten(lines + [line]) == Flatten(lines) + line
  {
    if |lines| == 0 {
      assert lines + [line] == [line];
    } else {
      assert (lines + [line])[1..] == lines[1..] + [line];
      FlattenAppend(lines[1..], line);
    }
  }

  /** Nothing is added or lost: the result is exactly as long as the lines. */
  lemma {:induction false} FlattenLength(lines: seq<string>)
    ensures |Flatten(lines)| == TotalLength(lines)
  {
    if |lines| > 0 {
      FlattenLength(lines[1..]);
    }
  }

  /** The joined text is empty exactly when every line is. */
  lemma {:induction false} FlattenEmptyIff(lines: seq<string>)
    ensures Flatten(lines) == "" <==> forall k :: 0 <= k < |lines| ==> lines[k] == ""
  {
    if |lines| > 0 {
      FlattenEmptyIff(lines[1..]);
      assert forall k :: 1 <= k < |lines| ==> lines[k] == lines[1..][k - 1];
    }
  }

  /** `readFromStream`: appends each line read to a builder until the reader
      reports the end of the stream. */
  method ReadFromStream(lines: seq<string>) returns (output: string)
    ensures output == Flatten(lines)
    ensures |output| == TotalLength(lines)
  {
    output := "";
    var i := 0;
    while i < |lines|
      invariant 0 <= i <= |lines|
      invariant output == Flatten(lines[..i])
    {
      FlattenAppend(lines[..i], lines[i]);
      assert lines[..i + 1] == lines[..i] + [lines[i]];
      output := output + lines[i];
      i := i + 1;
    }
    assert lines[..i] == lines;
    FlattenLength(lines);
  }

  /** The only path on which a body reaches the caller: a URL, status 200, a
      stream read to its end, and a clean close. */
  predicate BodyDelivered(url: Option<Url>, exchange: Exchange) {
    && url.Some?
    && exchange.Reply?
    && exchange.status == HTTP_OK
    && exchange.stream.Lines?
    && !exchange.closeFails
  }

  /** `makeHttpRequest`: every failure inside the `try` block is caught and
      leaves the response empty; only a failing `close` in the `finally` block
      escapes as an `IOException`. */
  function MakeHttpRequest(url: Option<Url>, exchange: Exchange): (r: Result<string, IoException>)
    ensures url.None? ==> r == Success("")
    ensures r.Failure? <==>
      && url.Some?
      && exchange.Reply?
      && exchange.status == HTTP_OK
      && !exchange.stream.NoStream?
      && exchange.closeFails
    ensures BodyDelivered(url, exchange) ==> r == Success(Flatten(exchange.stream.lines))
    ensures r.Success? && r.value != "" ==> BodyDelivered(url, exchange)
  {
    if url.None? then Success("")
    else
      match exchange
      case ConnectFailure => Success("")
      case Reply(status, stream, closeFails) =>
        if status != HTTP_OK then Success("")
        else
          match stream
          case NoStream => Success("")
          case ReadFailure => if closeFails then Failure(CloseFailed) else Success("")
          case Lines(lines) => if closeFails then Failure(CloseFailed) else Success(Flatten(lines))
  }

  /** Any status other than 200 gives an empty response and opens no stream,
      so nothing can be thrown. */
  lemma NonOkStatusGivesEmpty(url: Option<Url>, status: int, stream: StreamRead, closeFails: bool)
    requires status != HTTP_OK
    ensures MakeHttpRequest(url, Reply(status, stream, closeFails)) == Success("")
  {
  }
}
