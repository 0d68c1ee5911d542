/** The response of the trie's test handler, written by the model of `Res::respond`. */
module ResponseSamples {
  import opened Wrappers
  import opened Text
  import opened Responses

  const SampleBody: string := "sample handler #2"

  /** The decimal renderings the sample needs. */
  lemma SampleNumbers()
    ensures Decimal(200) == "200" && Decimal(17) == "17"
  {
    assert Decimal(2) == "2" && Decimal(20) == "20";
    assert Decimal(1) == "1";
  }

  /** A fresh response answering "sample handler #2" with every default in place. */
  method RespondScenario() returns (text: string, r: Result<()>)
    ensures r == Ok(())
    ensures text == "HTTP/1.x" + " " + "200" + " " + "OK" + "\r\n" + "Content-Length" + ": " + "17" + "\r\n" + "\r\n" + "sample handler #2"
  {
    var res := new Res("");
    ghost var keys;
    r, keys := res.Respond(SampleBody);
    PlainResponse(res.version, res.statusCode, res.status, keys, SampleBody);
    SampleNumbers();
    text := res.out;
  }

  /** A second answer is refused and adds nothing to what was written. */
  method RespondTwiceScenario() returns (first: Result<()>, second: Result<()>, text: string)
    ensures first == Ok(()) && second == Err(IoError(Other, "HTTP Already responded"))
    ensures text == "HTTP/1.x" + " " + "200" + " " + "OK" + "\r\n" + "Content-Length" + ": " + "17" + "\r\n" + "\r\n" + "sample handler #2"
  {
    var res := new Res("");
    ghost var keys;
    first, keys := res.Respond(SampleBody);
    PlainResponse(res.version, res.statusCode, res.status, keys, SampleBody);
    SampleNumbers();
    ghost var written := res.out;
    second, keys := res.Respond("again");
    text := res.out;
    assert text == written;
  }
}
