/**
  The dispatcher that `Server` uses, src/server/line/line_muxer.rs. It keeps lines
  under a cap and routes streams exactly as the line pool does (the same
  `RouteFrom` and `Handling`), but at the cap it only drops the stream,
  which closes it, without shutting it down; and its per-stream closure neither answers for a silent handler
  nor uses the same 404 status text.
 */
module LineMuxers {
  import opened Wrappers
  import opened Handlers
  import opened Text
  import opened Requests
  import opened Responses
  import opened Matchers
  import opened Lines
  import opened LinePools

  class LineMuxer {
    var lines: seq<Line>
    const maxLine: nat
    /** The dispatcher every line's handler consults (`http_muxer`). */
    var httpMuxer: Muxer

    ghost predicate Valid()
      reads this, lines
    {
      Owned(lines)
    }

    /** `LineMuxer::new(max_line)`: no lines and an empty dispatcher. */
    constructor(maxLine: nat)
      ensures Valid() && lines == [] && this.maxLine == maxLine
      ensures fresh(httpMuxer) && httpMuxer.filters == [] && httpMuxer.routes == map[]
    {
      lines := [];
      this.maxLine := maxLine;
      httpMuxer := new Muxer();
    }

    /** `add_new_line`: a new, empty line at the back. */
    method AddNewLine()
      requires Valid()
      modifies this
      ensures Valid() && |lines| == old(|lines|) + 1 && lines[..old(|lines|)] == old(lines)
      ensures fresh(lines[old(|lines|)]) && lines[old(|lines|)].buffer == [] && !lines[old(|lines|)].closed
      ensures httpMuxer == old(httpMuxer)
    {
      lines := Grow(lines);
    }

    /**
      `handle(s)`: an empty muxer gets its first line and the stream is
      handled again; at the cap the stream is dropped, and so closed, but not shut down;
      otherwise the lines are tried from the first, as `Handling` says.
     */
    method Handle(s: StreamId) returns (outcome: Outcome)
      requires Valid()
      modifies this, lines
      ensures Valid() && httpMuxer == old(httpMuxer)
      ensures var r := Handling(old(Answers(lines)), Iota(old(|lines|)), maxLine);
        outcome == r.outcome && Routed(lines, r.ids, old(Answers(lines)), old(lines), old(lines))
      ensures Settles(lines, old(lines), s, outcome)
      decreases if lines == [] then 1 else 0
    {
      if |lines| == 0 {
        AddNewLine();
        EmptyPoolHandling(maxLine);
        outcome := Handle(s);
      } else if |lines| == maxLine {
        outcome := Full;
      } else {
        outcome := SendToLine(s);
      }
    }

    /** `send_to_line(s, 0)` below the cap: the lines are tried from the first as `RouteFrom` says. */
    method SendToLine(s: StreamId) returns (outcome: Outcome)
      requires Valid() && lines != [] && |lines| != maxLine
      modifies this, lines
      ensures Valid() && httpMuxer == old(httpMuxer)
      ensures var r := Handling(old(Answers(lines)), Iota(old(|lines|)), maxLine);
        outcome == r.outcome && outcome != Full && Routed(lines, r.ids, old(Answers(lines)), old(lines), old(lines))
      ensures Settles(lines, old(lines), s, outcome)
    {
      ghost var ans, ids := Answers(lines), Iota(|lines|);
      HandlingRoutes(ans, ids, maxLine);
      TracksItself(lines);
      lines, outcome := SendFrom(lines, s, 0, ans, ids, lines);
    }
  }

  /** The muxer's 404 answer, written out: its status text ends in a full stop, its body does not. */
  lemma MuxerNotFoundText()
    ensures PlainText("HTTP/1.x", 404, "Not Found.", "Not Found")
         == "HTTP/1.x" + " " + "404" + " " + "Not Found." + "\r\n" + "Content-Length" + ": " + "9" + "\r\n" + "\r\n" + "Not Found"
  {
    assert Decimal(404) == "404" && Decimal(9) == "9" by { AnswerNumbers(); }
  }

  /**
    The closing part of the muxer's closure: without a handler the answer is
    404 "Not Found."; with one, only what the handler itself writes, modelled
    by the body it answers with, if any.
   */
  method Conclude(found: bool, handlerBody: Option<string>) returns (r: Result<()>, written: string)
    ensures r == Ok(())
    ensures !found ==> written == PlainText("HTTP/1.x", 404, "Not Found.", "Not Found")
    ensures found && handlerBody.None? ==> written == ""
    ensures found && handlerBody.Some? ==> written == PlainText("HTTP/1.x", 200, "OK", handlerBody.value)
  {
    var res := new Res("");
    ghost var keys;
    r := Ok(());
    if found {
      if handlerBody.Some? {
        r, keys := res.Respond(handlerBody.value);
        PlainResponse("HTTP/1.x", 200, "OK", keys, handlerBody.value);
      }
    } else {
      res.SetStatus(404, "Not Found.");
      r, keys := res.Respond("Not Found");
      PlainResponse("HTTP/1.x", 404, "Not Found.", keys, "Not Found");
    }
    written := res.out;
  }

  /**
    The per-stream closure of `get_muxer`: the request is read (a failure
    ends the closure with that error and nothing written), the dispatcher is
    asked for a handler, and the answer is concluded as above.
   */
  method ServeStream(input: string, mux: Muxer, handlerBody: Option<string>) returns (r: Result<()>, written: string)
    ensures Parse(input).Err? ==> r == Err(Parse(input).error) && written == ""
    ensures Parse(input).Ok? ==> r == Ok(())
    ensures Parse(input).Ok? && Dispatch(mux.routes, mux.filters, Parse(input).value).None? ==>
      written == PlainText("HTTP/1.x", 404, "Not Found.", "Not Found")
    ensures Parse(input).Ok? && Dispatch(mux.routes, mux.filters, Parse(input).value).Some? && handlerBody.None? ==>
      written == ""
    ensures Parse(input).Ok? && Dispatch(mux.routes, mux.filters, Parse(input).value).Some? && handlerBody.Some? ==>
      written == PlainText("HTTP/1.x", 200, "OK", handlerBody.value)
  {
    var parsed := New(input);
    if parsed.Err? {
      return Err(parsed.error), "";
    }
    var found;
    ghost var calls;
    found, calls := mux.GetHandler(parsed.value);
    r, written := Conclude(found.Some?, handlerBody);
  }
}
