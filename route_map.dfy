/**
  The older router of src/server/line/route_map.rs. Handlers are kept in two
  kinds of bucket: one per method and one per path. A bucket created for a
  method other than UNKNOWN also passes the handler to the UNKNOWN bucket, and
  a bucket created for a path other than "" passes it to the "" bucket; a
  bucket that already exists only grows. A lookup takes the path bucket and
  the method bucket and keeps the handlers found in both, compared by
  identity. Each `register` wraps a new closure in a new `Arc`, so a handler's
  identity is the number of the registration that made it.
 */
module RouteMaps {
  import opened Handlers
  import opened Methods
  import opened Responses

  /** The bucket under `k`, or an empty one when there is none. */
  function Bucket<K>(buckets: map<K, seq<HandlerId>>, k: K): seq<HandlerId> {
    if k in buckets then buckets[k] else []
  }

  /**
    `register_handler_ref_by_method`: `h` at the back of the bucket of `m`; a
    bucket newly made for a method other than UNKNOWN also passes `h` on to
    the UNKNOWN bucket.
   */
  function ByMethod(ms: map<Method, seq<HandlerId>>, m: Method, h: HandlerId): (r: map<Method, seq<HandlerId>>)
    ensures m in r && r[m] == Bucket(ms, m) + [h]
    ensures r.Keys == ms.Keys + {m} + (if m !in ms && m != UNKNOWN then {UNKNOWN} else {})
    ensures m !in ms && m != UNKNOWN ==> r[UNKNOWN] == Bucket(ms, UNKNOWN) + [h]
    ensures forall k :: k in ms && k != m && !(k == UNKNOWN && m !in ms) ==> r[k] == ms[k]
    decreases if m == UNKNOWN then 0 else 1
  {
    if m in ms then ms[m := ms[m] + [h]]
    else if m == UNKNOWN then ms[m := [h]]
    else ByMethod(ms[m := [h]], UNKNOWN, h)
  }

  /**
    `register_handler_ref_by_path`: `h` at the back of the bucket of `p`; a
    bucket newly made for a path other than "" also passes `h` on to the ""
    bucket.
   */
  function ByPath(ps: map<string, seq<HandlerId>>, p: string, h: HandlerId): (r: map<string, seq<HandlerId>>)
    ensures p in r && r[p] == Bucket(ps, p) + [h]
    ensures r.Keys == ps.Keys + {p} + (if p !in ps && p != "" then {""} else {})
    ensures p !in ps && p != "" ==> r[""] == Bucket(ps, "") + [h]
    ensures forall k :: k in ps && k != p && !(k == "" && p !in ps) ==> r[k] == ps[k]
    decreases if p == "" then 0 else 1
  {
    if p in ps then ps[p := ps[p] + [h]]
    else if p == "" then ps[p := [h]]
    else ByPath(ps[p := [h]], "", h)
  }

  /** The handlers of `l2` equal to `x`, one for each occurrence, in order. */
  function Hits(x: HandlerId, l2: seq<HandlerId>): seq<HandlerId> {
    if l2 == [] then []
    else Hits(x, l2[..|l2| - 1]) + (if l2[|l2| - 1] == x then [x] else [])
  }

  /**
    What `find_matches(l1, l2)` collects: for each handler of `l1` in order,
    one copy per occurrence of it in `l2`.
   */
  function Matches(l1: seq<HandlerId>, l2: seq<HandlerId>): seq<HandlerId> {
    if l1 == [] then []
    else Matches(l1[..|l1| - 1], l2) + Hits(l1[|l1| - 1], l2)
  }

  /** The handlers of `l1` that are also in `l2`, in the order of `l1`. */
  function Common(l1: seq<HandlerId>, l2: seq<HandlerId>): (r: seq<HandlerId>)
    ensures |r| <= |l1|
  {
    if l1 == [] then []
    else Common(l1[..|l1| - 1], l2) + (if l1[|l1| - 1] in l2 then [l1[|l1| - 1]] else [])
  }

  /** Strictly increasing: a bucket holds each handler once, in the order of registration. */
  predicate Ascending(l: seq<HandlerId>) {
    forall i, j :: 0 <= i < j < |l| ==> l[i] < l[j]
  }

  /** An ascending bucket of handlers all below `next`. */
  predicate Fits(l: seq<HandlerId>, next: HandlerId) {
    Ascending(l) && forall i :: 0 <= i < |l| ==> l[i] < next
  }

  /** Every bucket is ascending and holds only handlers below `next`. */
  ghost predicate BucketsBelow<K>(buckets: map<K, seq<HandlerId>>, next: HandlerId) {
    forall k :: k in buckets ==> Fits(buckets[k], next)
  }

  /** `RouteMap`: the method buckets, the path buckets and the number of registrations made. */
  class RouteMap {
    var methods: map<Method, seq<HandlerId>>
    var paths: map<string, seq<HandlerId>>
    /** The identity the next registered handler receives. */
    var next: HandlerId

    ghost predicate Valid()
      reads this
    {
      BucketsBelow(methods, next) && BucketsBelow(paths, next)
    }

    /** `RouteMap::default()`: no buckets. */
    constructor()
      ensures Valid() && methods == map[] && paths == map[] && next == 0
    {
      methods := map[];
      paths := map[];
      next := 0;
    }

    /** `register_handler_ref_by_method(m, h)`, recursive as in the source. */
    method RegisterByMethod(m: Method, h: HandlerId)
      modifies this
      ensures methods == ByMethod(old(methods), m, h)
      ensures paths == old(paths) && next == old(next)
      decreases if m == UNKNOWN then 0 else 1
    {
      if m in methods {
        methods := methods[m := methods[m] + [h]];
      } else {
        methods := methods[m := [h]];
        if m != UNKNOWN {
          RegisterByMethod(UNKNOWN, h);
        }
      }
    }

    /** `register_handler_ref_by_path(p, h)`, recursive as in the source. */
    method RegisterByPath(p: string, h: HandlerId)
      modifies this
      ensures paths == ByPath(old(paths), p, h)
      ensures methods == old(methods) && next == old(next)
      decreases if p == "" then 0 else 1
    {
      if p in paths {
        paths := paths[p := paths[p] + [h]];
      } else {
        paths := paths[p := [h]];
        if p != "" {
          RegisterByPath("", h);
        }
      }
    }

    /**
      `register(m, p, h)`: the handler gets a new identity, joins the bucket of
      its method and that of its path, and the buckets stay ascending.
     */
    method Register(m: Method, p: string) returns (h: HandlerId)
      requires Valid()
      modifies this
      ensures Valid()
      ensures h == old(next) && next == old(next) + 1
      ensures methods == ByMethod(old(methods), m, h) && paths == ByPath(old(paths), p, h)
    {
      h := next;
      next := next + 1;
      ghost var ms, ps := methods, paths;
      RegisterByMethod(m, h);
      RegisterByPath(p, h);
      ByMethodBelow(ms, m, h);
      ByPathBelow(ps, p, h);
    }

    /**
      `get_handlers(m, p)`: nothing when either bucket is missing; otherwise
      the handlers of the path bucket that are also in the method bucket, in
      the order of the path bucket.
     */
    method GetHandlers(m: Method, p: string) returns (hs: seq<HandlerId>)
      requires Valid()
      ensures p !in paths || m !in methods ==> hs == []
      ensures p in paths && m in methods ==> hs == Common(paths[p], methods[m])
    {
      hs := [];
      if p in paths {
        if m in methods {
          hs := FindMatches(paths[p], methods[m]);
          CommonWhenAscending(paths[p], methods[m]);
        }
      }
    }
  }

  /** A registration with a new identity keeps the method buckets ascending and below the new count. */
  lemma ByMethodBelow(ms: map<Method, seq<HandlerId>>, m: Method, h: HandlerId)
    requires BucketsBelow(ms, h)
    ensures BucketsBelow(ByMethod(ms, m, h), h + 1)
  {
    var r := ByMethod(ms, m, h);
    forall k | k in r
      ensures Fits(r[k], h + 1)
    {
      if k == m || (k == UNKNOWN && m !in ms && m != UNKNOWN) {
        AppendedAscending(Bucket(ms, k), h);
      }
    }
  }

  /** A registration with a new identity keeps the path buckets ascending and below the new count. */
  lemma ByPathBelow(ps: map<string, seq<HandlerId>>, p: string, h: HandlerId)
    requires BucketsBelow(ps, h)
    ensures BucketsBelow(ByPath(ps, p, h), h + 1)
  {
    var r := ByPath(ps, p, h);
    forall k | k in r
      ensures Fits(r[k], h + 1)
    {
      if k == p || (k == "" && p !in ps && p != "") {
        AppendedAscending(Bucket(ps, k), h);
      }
    }
  }

  /** A handler above every one in an ascending bucket keeps it ascending at the back. */
  lemma AppendedAscending(l: seq<HandlerId>, h: HandlerId)
    requires Fits(l, h)
    ensures Fits(l + [h], h + 1)
  {
  }

  /** Registration only appends: every old bucket is still there and begins with what it held. */
  lemma RegisterAppendOnly(ms: map<Method, seq<HandlerId>>, ps: map<string, seq<HandlerId>>, m: Method, p: string, h: HandlerId)
    ensures forall k :: k in ms ==> k in ByMethod(ms, m, h) && ms[k] <= ByMethod(ms, m, h)[k]
    ensures forall k :: k in ps ==> k in ByPath(ps, p, h) && ps[k] <= ByPath(ps, p, h)[k]
  {
    var rm, rp := ByMethod(ms, m, h), ByPath(ps, p, h);
    forall k | k in ms
      ensures k in rm && ms[k] <= rm[k]
    {
      if k == m || (k == UNKNOWN && m !in ms) {
        assert rm[k] == ms[k] + [h];
      }
    }
    forall k | k in ps
      ensures k in rp && ps[k] <= rp[k]
    {
      if k == p || (k == "" && p !in ps) {
        assert rp[k] == ps[k] + [h];
      }
    }
  }

  /**
    `find_matches(l1, l2)`: for each handler of `l1`, each handler of `l2` is
    compared with it by identity and every match is collected.
   */
  method FindMatches(l1: seq<HandlerId>, l2: seq<HandlerId>) returns (matched: seq<HandlerId>)
    ensures matched == Matches(l1, l2)
  {
    matched := [];
    for i := 0 to |l1|
      invariant matched == Matches(l1[..i], l2)
    {
      ghost var before := matched;
      for j := 0 to |l2|
        invariant matched == before + Hits(l1[i], l2[..j])
      {
        assert l2[..j + 1][..j] == l2[..j];
        if l1[i] == l2[j] {
          matched := matched + [l1[i]];
        }
      }
      assert l2[..|l2|] == l2;
      assert l1[..i + 1][..i] == l1[..i];
    }
    assert l1[..|l1|] == l1;
  }

  /** A handler is matched exactly when it is in both lists. */
  lemma {:induction false} MatchesMembers(l1: seq<HandlerId>, l2: seq<HandlerId>, x: HandlerId)
    ensures x in Matches(l1, l2) <==> x in l1 && x in l2
  {
    if l1 != [] {
      var init, last := l1[..|l1| - 1], l1[|l1| - 1];
      assert l1 == init + [last];
      MatchesMembers(init, l2, x);
      HitsMembers(last, l2, x);
    }
  }

  lemma {:induction false} HitsMembers(y: HandlerId, l2: seq<HandlerId>, x: HandlerId)
    ensures x in Hits(y, l2) <==> x == y && y in l2
  {
    if l2 != [] {
      var init := l2[..|l2| - 1];
      assert l2 == init + [l2[|l2| - 1]];
      HitsMembers(y, init, x);
    }
  }

  /** In a list that holds each handler once, a handler is hit once when it is there and never otherwise. */
  lemma {:induction false} HitsOnce(x: HandlerId, l2: seq<HandlerId>)
    requires Ascending(l2)
    ensures Hits(x, l2) == if x in l2 then [x] else []
  {
    if l2 != [] {
      var init := l2[..|l2| - 1];
      assert l2 == init + [l2[|l2| - 1]];
      assert Ascending(init);
      HitsOnce(x, init);
      if l2[|l2| - 1] == x {
        assert x !in init;
      }
    }
  }

  /** Against a bucket that holds each handler once, the matches are the common handlers in the order of `l1`. */
  lemma {:induction false} CommonWhenAscending(l1: seq<HandlerId>, l2: seq<HandlerId>)
    requires Ascending(l2)
    ensures Matches(l1, l2) == Common(l1, l2)
  {
    if l1 != [] {
      CommonWhenAscending(l1[..|l1| - 1], l2);
      HitsOnce(l1[|l1| - 1], l2);
    }
  }

  /** The method buckets after the two registrations of the module's own test. */
  lemma ScenarioMethods(ms: map<Method, seq<HandlerId>>)
    requires ms == ByMethod(ByMethod(map[], UNKNOWN, 0), GET, 1)
    ensures UNKNOWN in ms && ms[UNKNOWN] == [0, 1] && GET in ms && ms[GET] == [1]
  {
    var m0 := ByMethod(map[], UNKNOWN, 0);
    assert m0[UNKNOWN] == [0] && GET !in m0;
  }

  /** The path buckets after the two registrations of the module's own test. */
  lemma ScenarioPaths(ps: map<string, seq<HandlerId>>)
    requires ps == ByPath(ByPath(map[], "/", 0), "/hello", 1)
    ensures "" in ps && ps[""] == [0, 1] && "/" in ps && ps["/"] == [0]
  {
    var p0 := ByPath(map[], "/", 0);
    assert "/" != "" && "/hello" != "" && "/hello" != "/" by {
      assert "/hello"[1] == 'h';
    }
    assert p0[""] == [0] && p0["/"] == [0] && "/hello" !in p0;
  }

  /** The lookups of the module's own test, on the buckets above. */
  lemma ScenarioCommon()
    ensures Common([0, 1], [0, 1]) == [0, 1] && Common([0], [0, 1]) == [0] && Common([0, 1], [1]) == [1]
  {
    assert [0, 1][..1] == [0];
  }

  /** The first registration of the module's own test: handler 0 under (UNKNOWN, "/"). */
  method FirstRegistration() returns (rm: RouteMap)
    ensures fresh(rm) && rm.Valid() && rm.next == 1
    ensures rm.methods == ByMethod(map[], UNKNOWN, 0) && rm.paths == ByPath(map[], "/", 0)
  {
    rm := new RouteMap();
    var h0 := rm.Register(UNKNOWN, "/");
  }

  /** The two registrations of the module's own test: handler 0 under (UNKNOWN, "/"), handler 1 under (GET, "/hello"). */
  method ScenarioMap() returns (rm: RouteMap)
    ensures fresh(rm) && rm.Valid()
    ensures UNKNOWN in rm.methods && rm.methods[UNKNOWN] == [0, 1] && GET in rm.methods && rm.methods[GET] == [1]
    ensures "" in rm.paths && rm.paths[""] == [0, 1] && "/" in rm.paths && rm.paths["/"] == [0]
  {
    rm := FirstRegistration();
    var h1 := rm.Register(GET, "/hello");
    ScenarioMethods(rm.methods);
    ScenarioPaths(rm.paths);
  }

  /**
    Runs the handlers `hs` in order against one response, the handler `h`
    setting the status `actions[h]`: the status the handler run last set is
    the one that stays.
   */
  method RunHandlers(res: Res, hs: seq<HandlerId>, actions: seq<(U16, string)>)
    requires forall i :: 0 <= i < |hs| ==> hs[i] < |actions|
    modifies res
    ensures hs == [] ==> res.status == old(res.status) && res.statusCode == old(res.statusCode)
    ensures hs != [] ==> res.statusCode == actions[hs[|hs| - 1]].0 && res.status == actions[hs[|hs| - 1]].1
    ensures res.out == old(res.out) && res.responded == old(res.responded) && res.headers == old(res.headers)
  {
    for i := 0 to |hs|
      invariant i == 0 ==> res.status == old(res.status) && res.statusCode == old(res.statusCode)
      invariant i > 0 ==> res.statusCode == actions[hs[i - 1]].0 && res.status == actions[hs[i - 1]].1
      invariant res.out == old(res.out) && res.responded == old(res.responded) && res.headers == old(res.headers)
    {
      res.SetStatus(actions[hs[i]].0, actions[hs[i]].1);
    }
  }

  /**
    The module's own test: on the map above, (UNKNOWN, "") finds both
    handlers in order, (UNKNOWN, "/") only handler 0 and (GET, "") only
    handler 1.
   */
  method RouteMapScenario() returns (any: seq<HandlerId>, root: seq<HandlerId>, get: seq<HandlerId>)
    ensures any == [0, 1] && root == [0] && get == [1]
  {
    var rm := ScenarioMap();
    ScenarioCommon();
    any := rm.GetHandlers(UNKNOWN, "");
    root := rm.GetHandlers(UNKNOWN, "/");
    get := rm.GetHandlers(GET, "");
  }

  /**
    The statuses the test checks: handler 0 sets 100 "wo" and handler 1 sets
    300 "hello"; run against one response, the three lookups leave "hello",
    "wo" and "hello" in turn.
   */
  method RouteMapStatuses() returns (first: string, second: string, third: string)
    ensures first == "hello" && second == "wo" && third == "hello"
  {
    var any, root, get := RouteMapScenario();
    var actions := [(100, "wo"), (300, "hello")];
    var res := new Res("");
    RunHandlers(res, any, actions);
    first := res.status;
    RunHandlers(res, root, actions);
    second := res.status;
    RunHandlers(res, get, actions);
    third := res.status;
  }
}
