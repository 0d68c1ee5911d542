/**
  The request dispatcher of src/server/http/matcher.rs: an exact
  `(method, path)` table consulted first, then a list of filters tried in
  registration order. Matchers are predicates on a parsed request and
  handlers are identified by number.
 */
module Matchers {
  import opened Wrappers
  import opened Methods
  import opened Handlers
  import opened Requests
  import opened Responses

  /** A matcher (`Fn(&mut Req) -> bool`) as a predicate on the request. */
  type Matcher = Req -> bool

  /** A filter: a matcher and the handler it selects. */
  datatype MatchEntry = MatchEntry(matcher: Matcher, handler: HandlerId)

  /** Every matcher of the chain holds for `req`, checked front to back. */
  function AllHold(ms: seq<Matcher>, req: Req): bool {
    if ms == [] then true else ms[0](req) && AllHold(ms[1..], req)
  }

  /** The chain holds exactly when each of its matchers does. */
  lemma {:induction false} AllHoldIff(ms: seq<Matcher>, req: Req)
    ensures AllHold(ms, req) <==> forall i :: 0 <= i < |ms| ==> ms[i](req)
  {
    if ms != [] {
      AllHoldIff(ms[1..], req);
      assert forall i :: 1 <= i < |ms| ==> ms[i] == ms[1..][i - 1];
    }
  }

  /** `Muxer::combine`: one matcher that holds when all of the chain's matchers hold. */
  function Combine(ms: seq<Matcher>): (c: Matcher)
    ensures forall req :: c(req) <==> forall i :: 0 <= i < |ms| ==> ms[i](req)
  {
    forall req ensures AllHold(ms, req) <==> forall i :: 0 <= i < |ms| ==> ms[i](req) {
      AllHoldIff(ms, req);
    }
    (req: Req) => AllHold(ms, req)
  }

  /**
    The loop inside the combined matcher: the matchers are called in chain
    order and the first one that fails ends the loop. `calls` counts the
    matchers called.
   */
  method RunCombined(ms: seq<Matcher>, req: Req) returns (holds: bool, calls: nat)
    ensures holds == Combine(ms)(req)
    ensures holds ==> calls == |ms|
    ensures !holds ==> 1 <= calls <= |ms| && !ms[calls - 1](req) && forall i :: 0 <= i < calls - 1 ==> ms[i](req)
  {
    calls := 0;
    while calls < |ms|
      invariant 0 <= calls <= |ms|
      invariant forall i :: 0 <= i < calls ==> ms[i](req)
    {
      calls := calls + 1;
      if !ms[calls - 1](req) {
        return false, calls;
      }
    }
    return true, calls;
  }

  /** Filter `i` is the first one whose matcher holds for `req`. */
  ghost predicate FirstTrue(filters: seq<MatchEntry>, req: Req, i: nat) {
    && i < |filters| && filters[i].matcher(req)
    && forall j :: 0 <= j < i ==> !filters[j].matcher(req)
  }

  /** The first filter, from index `from` on, whose matcher holds. */
  function FirstMatchFrom(filters: seq<MatchEntry>, req: Req, from: nat): (r: Option<nat>)
    requires from <= |filters|
    ensures r.Some? ==> from <= r.value < |filters| && filters[r.value].matcher(req)
    ensures r.Some? ==> forall j :: from <= j < r.value ==> !filters[j].matcher(req)
    ensures r.None? ==> forall j :: from <= j < |filters| ==> !filters[j].matcher(req)
    decreases |filters| - from
  {
    if from == |filters| then None
    else if filters[from].matcher(req) then Some(from)
    else FirstMatchFrom(filters, req, from + 1)
  }

  /**
    `Muxer::get_handler`: the exact table wins; without an exact entry, the
    handler of the first filter that holds; otherwise none.
   */
  function Dispatch(routes: map<(Method, string), HandlerId>, filters: seq<MatchEntry>, req: Req): (r: Option<HandlerId>)
    ensures (req.verb, req.path) in routes ==> r == Some(routes[(req.verb, req.path)])
    ensures (req.verb, req.path) !in routes && r.Some? ==>
      exists i: nat :: FirstTrue(filters, req, i) && r.value == filters[i].handler
    ensures (req.verb, req.path) !in routes && r.None? ==>
      forall j :: 0 <= j < |filters| ==> !filters[j].matcher(req)
  {
    if (req.verb, req.path) in routes then Some(routes[(req.verb, req.path)])
    else match FirstMatchFrom(filters, req, 0)
      case Some(i) => assert FirstTrue(filters, req, i); Some(filters[i].handler)
      case None => None
  }

  /** The search from `from` finds the first filter that holds, when it lies at or after `from`. */
  lemma {:induction false} FirstMatchFromFinds(filters: seq<MatchEntry>, req: Req, from: nat, i: nat)
    requires from <= i && FirstTrue(filters, req, i)
    ensures FirstMatchFrom(filters, req, from) == Some(i)
    decreases i - from
  {
    if from < i {
      FirstMatchFromFinds(filters, req, from + 1, i);
    }
  }

  /** Without an exact entry, a filter that holds, with none before it holding, gives its handler. */
  lemma DispatchFirstFilter(routes: map<(Method, string), HandlerId>, filters: seq<MatchEntry>, req: Req, i: nat)
    requires (req.verb, req.path) !in routes
    requires FirstTrue(filters, req, i)
    ensures Dispatch(routes, filters, req) == Some(filters[i].handler)
  {
    FirstMatchFromFinds(filters, req, 0, i);
  }

  /** The dispatcher: the exact table and the filters in registration order (`Muxer`). */
  class Muxer {
    var filters: seq<MatchEntry>
    var routes: map<(Method, string), HandlerId>

    /** `Muxer::default()`: no filters and an empty table. */
    constructor()
      ensures filters == [] && routes == map[]
    {
      filters := [];
      routes := map[];
    }

    /** `Muxer::add_handler`: the entry for `(m, p)` is set, replacing an earlier one; the filters stay. */
    method AddHandler(m: Method, p: string, h: HandlerId)
      modifies this
      ensures routes == old(routes)[(m, p) := h]
      ensures filters == old(filters)
    {
      routes := routes[(m, p) := h];
    }

    /** `Muxer::add_handler_from_matchers`: one filter is appended; a single matcher is kept as it is, a longer chain combined. */
    method AddHandlerFromMatchers(ms: seq<Matcher>, h: HandlerId)
      modifies this
      ensures filters == old(filters) + [MatchEntry(if |ms| == 1 then ms[0] else Combine(ms), h)]
      ensures routes == old(routes)
    {
      var m: Matcher;
      if |ms| == 1 {
        m := ms[0];
      } else {
        m := Combine(ms);
      }
      filters := filters + [MatchEntry(m, h)];
    }

    /** `Muxer::filter`: a chain holding one matcher, attached to this dispatcher. */
    method Filter(m: Matcher) returns (c: MatchChain)
      ensures fresh(c)
      ensures c.matchers == [m] && c.muxer == this
    {
      c := new MatchChain([m], this);
    }

    /**
      `Muxer::get_handler`, with the source's loop over the filters. `calls`
      counts the matchers evaluated: none on an exact hit, and the filters up
      to and including the first that holds otherwise.
     */
    method GetHandler(req: Req) returns (r: Option<HandlerId>, ghost calls: nat)
      ensures r == Dispatch(routes, filters, req)
      ensures (req.verb, req.path) in routes ==> calls == 0
      ensures (req.verb, req.path) !in routes ==>
        match FirstMatchFrom(filters, req, 0)
        case Some(i) => calls == i + 1
        case None => calls == |filters|
    {
      calls := 0;
      if (req.verb, req.path) in routes {
        return Some(routes[(req.verb, req.path)]), calls;
      }
      var i := 0;
      while i < |filters|
        invariant 0 <= i <= |filters| && calls == i
        invariant FirstMatchFrom(filters, req, i) == FirstMatchFrom(filters, req, 0)
      {
        calls := calls + 1;
        if filters[i].matcher(req) {
          return Some(filters[i].handler), calls;
        }
        i := i + 1;
      }
      return None, calls;
    }
  }

  /** `MatchChain`: the matchers collected so far and the dispatcher they will be added to. */
  class MatchChain {
    var matchers: seq<Matcher>
    var muxer: Muxer

    constructor(ms: seq<Matcher>, mux: Muxer)
      ensures matchers == ms && muxer == mux
    {
      matchers := ms;
      muxer := mux;
    }

    /** `MatchChain::filter`: the matcher goes at the end of the chain, and the chain itself is returned. */
    method Filter(m: Matcher) returns (c: MatchChain)
      modifies this
      ensures c == this
      ensures matchers == old(matchers) + [m] && muxer == old(muxer)
    {
      matchers := matchers + [m];
      c := this;
    }

    /** `MatchChain::handle`: the whole chain becomes one filter at the end of the dispatcher's list. */
    method Handle(h: HandlerId)
      modifies muxer
      ensures muxer.filters == old(muxer.filters) + [MatchEntry(if |matchers| == 1 then matchers[0] else Combine(matchers), h)]
      ensures muxer.routes == old(muxer.routes)
    {
      muxer.AddHandlerFromMatchers(matchers, h);
    }
  }

  /** A request with the given method and path, as the dispatcher sees it. */
  function Request(m: Method, p: string): Req {
    Req(m, p, "HTTP/1.1", map["Host" := "www.xiwen.com", "Content-Type" := "text"], "Wassup!")
  }

  /**
    The dispatcher of the matcher tests: POST /login in the table (handler 1)
    and the chain "method is GET" and "path is /hi" (handler 2). POST /login
    takes the table entry, GET /hi the chain, and GET /haha nothing.
   */
  method DispatchScenario() returns (login: Option<HandlerId>, hi: Option<HandlerId>, haha: Option<HandlerId>)
    ensures login == Some(1) && hi == Some(2) && haha == None
  {
    var isGet: Matcher := (r: Req) => r.verb == GET;
    var isHi: Matcher := (r: Req) => r.path == "/hi";
    var mux := new Muxer();
    mux.AddHandler(POST, "/login", 1);
    var c := mux.Filter(isGet);
    c := c.Filter(isHi);
    assert c.matchers == [isGet, isHi];
    c.Handle(2);
    assert mux.filters == [MatchEntry(Combine([isGet, isHi]), 2)];
    var chain := [isGet, isHi];
    assert !chain[1](Request(GET, "/haha"));
    assert !Combine(chain)(Request(GET, "/haha"));
    ghost var calls;
    login, calls := mux.GetHandler(Request(POST, "/login"));
    hi, calls := mux.GetHandler(Request(GET, "/hi"));
    haha, calls := mux.GetHandler(Request(GET, "/haha"));
    assert FirstTrue(mux.filters, Request(GET, "/hi"), 0);
    DispatchFirstFilter(mux.routes, mux.filters, Request(GET, "/hi"), 0);
  }

  /**
    The matcher tests run the handler they find: the table's handler sets
    403 "bad login", the chain's sets 210 "Hello". Handler `i` is modelled by
    the status it sets, `actions[i]`.
   */
  method DispatchStatuses() returns (login: string, hi: string)
    ensures login == "bad login" && hi == "Hello"
  {
    var actions: seq<(U16, string)> := [(200, "OK"), (403, "bad login"), (210, "Hello")];
    var loginHandler, hiHandler, hahaHandler := DispatchScenario();
    var loginRes := new Res("");
    loginRes.SetStatus(actions[loginHandler.value].0, actions[loginHandler.value].1);
    login := loginRes.status;
    var hiRes := new Res("");
    hiRes.SetStatus(actions[hiHandler.value].0, actions[hiHandler.value].1);
    hi := hiRes.status;
  }
}
