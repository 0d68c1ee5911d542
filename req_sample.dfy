/** The request of the parser's own test, read by the model of `Req::new`. */
module RequestSamples {
  import opened Wrappers
  import opened Text
  import opened Methods
  import opened Requests

  /** The request of the test: a request line, three header lines, an empty line and "Hello". */
  const SampleFirstLine: string := "GET" + " " + ("/index.html" + " " + "HTTP/1.1")
  const SampleFields: seq<(string, string)> := [("Host", "www.xiwen.com"), ("Accept-Language", "en-us"), ("Content-Length", "5")]
  const SampleHeaderLines: seq<string> := FieldLines(SampleFields)
  const SampleHeaderMap: map<string, string> := map["Host" := "www.xiwen.com"]["Accept-Language" := "en-us"]["Content-Length" := "5"]
  const SampleText: string := SampleFirstLine + "\r\n" + CrlfLines(SampleHeaderLines) + "\r\n" + "Hello"

  /** The sample's request line splits into method, path and version. */
  lemma SampleTokens()
    ensures Tokens(SampleFirstLine) == ["GET", "/index.html", "HTTP/1.1"]
  {
    TokensOfThree("GET", "/index.html", "HTTP/1.1");
  }

  /** The sample's header lines are read into the three-entry map. */
  lemma SampleHeaders()
    ensures Store(Fields(SampleHeaderLines), map[]) == SampleHeaderMap
  {
    assert forall i :: 0 <= i < |SampleFields| ==> Clean(SampleFields[i]);
    FieldsOfFieldLines(SampleFields);
    StoreOfThree(SampleFields[0], SampleFields[1], SampleFields[2], map[]);
  }

  /** No line of the sample holds a line feed, and no header line is empty. */
  lemma SampleLines()
    ensures '\n' !in SampleFirstLine
    ensures forall i :: 0 <= i < |SampleHeaderLines| ==> SampleHeaderLines[i] != [] && '\n' !in SampleHeaderLines[i]
  {
  }

  /** The parser's own sample: GET "/index.html" "HTTP/1.1", three headers with Host among them, and "Hello" left as the body. */
  lemma SampleRequest()
    ensures Parse(SampleText) == Ok(Req(GET, "/index.html", "HTTP/1.1", SampleHeaderMap, "Hello"))
  {
    SampleTokens();
    SampleHeaders();
    SampleLines();
    ParseOfParts(SampleFirstLine, SampleHeaderLines, "Hello");
    SampleParsed(SampleText, Tokens(SampleFirstLine), Store(Fields(SampleHeaderLines), map[]));
  }

  lemma SampleParsed(input: string, ts: seq<string>, headers: map<string, string>)
    requires ts == ["GET", "/index.html", "HTTP/1.1"] && headers == SampleHeaderMap
    requires Parse(input) == Ok(Req(FromStr(ts[0]), TokenOr(ts, 1), TokenOr(ts, 2), headers, "Hello"))
    ensures Parse(input) == Ok(Req(GET, "/index.html", "HTTP/1.1", SampleHeaderMap, "Hello"))
  {
    assert FromStr(ts[0]) == GET;
  }

  /** The sample's header map has exactly its three keys, Host among them. */
  lemma SampleHeaderMapHasHost()
    ensures SampleHeaderMap.Keys == {"Host", "Accept-Language", "Content-Length"}
    ensures SampleHeaderMap["Host"] == "www.xiwen.com"
  {
  }
}
