/**
  Admission control of src/server/line/line_pool.rs: a list of worker lines,
  a cap on their number, and the retry rule that hands an incoming stream
  to the first line that takes it. The routing rule is stated once, as a
  function on what each line would answer, and shared with the line muxer.
 */
module LinePools {
  import opened Wrappers
  import opened Handlers
  import opened Text
  import opened Requests
  import opened Responses
  import opened Matchers
  import opened Lines

  /** How handing a stream to the lines ended. */
  datatype Outcome =
    | Delivered(at: nat)   // line `at` of the final list took the stream
    | Full                 // the pool was at its cap: no line was tried
    | OutOfRange           // the retry index passed the end: `lines[idx]` panics in the source

  /**
    A routing: the lines the pool ends with, each named by its place in the
    pool before the call (the place one past the end names a line added on
    the way), and the outcome.
   */
  datatype Route = Route(ids: seq<nat>, outcome: Outcome)

  /** What line `id` answers; a line that was not there before is fresh, so it takes the stream. */
  function AnswerOf(ans: seq<Option<SendError>>, id: nat): Option<SendError> {
    if id < |ans| then ans[id] else None
  }

  /**
    `send_to_line(s, idx)`: a line that accepts ends the search; a busy line
    passes the stream to the next one, adding a line first when it was the
    last; a disconnected line is removed and the same index tried again.
   */
  function RouteFrom(ans: seq<Option<SendError>>, ids: seq<nat>, idx: nat): Route
    requires idx <= |ids|
    decreases |ids| - idx, if ids != [] && AnswerOf(ans, ids[|ids| - 1]) == None then 0 else 1
  {
    if idx == |ids| then Route(ids, OutOfRange)
    else match AnswerOf(ans, ids[idx])
      case None => Route(ids, Delivered(idx))
      case Some(LineBusy) => RouteFrom(ans, if idx + 1 == |ids| then ids + [|ans|] else ids, idx + 1)
      case Some(Disconnected) => RouteFrom(ans, ids[..idx] + ids[idx + 1..], idx)
  }

  /**
    `handle(s)` for lines `ids` under a cap of `maxLine`: an empty pool first
    gets a line and the stream is handled again; a pool at its cap takes
    nothing; otherwise the lines are tried from the first.
   */
  function Handling(ans: seq<Option<SendError>>, ids: seq<nat>, maxLine: nat): Route
    decreases if ids == [] then 1 else 0
  {
    if ids == [] then Handling(ans, [|ans|], maxLine)
    else if |ids| == maxLine then Route(ids, Full)
    else RouteFrom(ans, ids, 0)
  }

  /** The places `0 .. n - 1`: the pool as it stands. */
  function Iota(n: nat): (s: seq<nat>)
    ensures |s| == n && forall i :: 0 <= i < n ==> s[i] == i
  {
    seq(n, i => i)
  }

  /** Strictly increasing places: the lines kept are in their original relative order. */
  predicate Increasing(ids: seq<nat>) {
    forall i, j :: 0 <= i < j < |ids| ==> ids[i] < ids[j]
  }

  /**
    The search runs off the end exactly when no line from `idx` on accepts
    and the last line left is disconnected, or no line is left.
   */
  lemma {:induction false} RunsOffTheEnd(ans: seq<Option<SendError>>, ids: seq<nat>, idx: nat)
    requires idx <= |ids|
    ensures RouteFrom(ans, ids, idx).outcome == OutOfRange <==>
      && (forall k :: idx <= k < |ids| ==> AnswerOf(ans, ids[k]) != None)
      && (idx == |ids| || AnswerOf(ans, ids[|ids| - 1]) == Some(Disconnected))
    ensures RouteFrom(ans, ids, idx).outcome != Full
    decreases |ids| - idx, if ids != [] && AnswerOf(ans, ids[|ids| - 1]) == None then 0 else 1
  {
    if idx < |ids| {
      match AnswerOf(ans, ids[idx])
      case None =>
      case Some(LineBusy) =>
        if idx + 1 == |ids| {
          var next := ids + [|ans|];
          assert AnswerOf(ans, next[idx + 1]) == None;
          RunsOffTheEnd(ans, next, idx + 1);
        } else {
          RunsOffTheEnd(ans, ids, idx + 1);
        }
      case Some(Disconnected) =>
        var next := ids[..idx] + ids[idx + 1..];
        assert forall k :: idx <= k < |next| ==> next[k] == ids[k + 1];
        RunsOffTheEnd(ans, next, idx);
    }
  }

  /** A pool that is neither empty nor at its cap is routed from its first line, and never comes out full. */
  lemma HandlingRoutes(ans: seq<Option<SendError>>, ids: seq<nat>, maxLine: nat)
    requires ids != [] && |ids| != maxLine
    ensures Handling(ans, ids, maxLine) == RouteFrom(ans, ids, 0)
    ensures Handling(ans, ids, maxLine).outcome != Full
  {
    RunsOffTheEnd(ans, ids, 0);
  }

  /** The shape of a routing's result, for a pool whose places increase and name old lines or the fresh one. */
  ghost predicate Shaped(ans: seq<Option<SendError>>, ids: seq<nat>) {
    Increasing(ids) && forall i :: 0 <= i < |ids| ==> ids[i] <= |ans|
  }

  /**
    Routing from `idx` turned places `ids` into `r`: the places before `idx`
    stay, only disconnected lines are gone, and only the fresh line is new.
   */
  ghost predicate Reshapes(ans: seq<Option<SendError>>, ids: seq<nat>, r: seq<nat>, idx: nat) {
    && idx <= |r| <= |ids| + 1 && idx <= |ids|
    && r[..idx] == ids[..idx]
    && (forall id :: id in ids && id !in r ==> AnswerOf(ans, id) == Some(Disconnected))
    && (forall id :: id in r && id !in ids ==> id == |ans|)
  }

  /** A delivery from `idx` on goes to an accepting line, past busy lines only. */
  ghost predicate Delivers(ans: seq<Option<SendError>>, r: Route, idx: nat) {
    r.outcome.Delivered? ==>
      && r.outcome.at < |r.ids| && AnswerOf(ans, r.ids[r.outcome.at]) == None
      && forall k :: idx <= k < r.outcome.at ==> AnswerOf(ans, r.ids[k]) == Some(LineBusy)
  }

  /**
    A routing keeps the lines before `idx`, keeps the others in order,
    removes only disconnected lines, adds at most one line and only the
    fresh one, and delivers to an accepting line past busy lines only.
   */
  lemma {:induction false} RouteShape(ans: seq<Option<SendError>>, ids: seq<nat>, idx: nat)
    requires idx <= |ids| && Shaped(ans, ids)
    ensures var r := RouteFrom(ans, ids, idx);
      Shaped(ans, r.ids) && Reshapes(ans, ids, r.ids, idx) && Delivers(ans, r, idx)
    decreases |ids| - idx, if ids != [] && AnswerOf(ans, ids[|ids| - 1]) == None then 0 else 1
  {
    if idx == |ids| {
      assert RouteFrom(ans, ids, idx).ids == ids;
    } else {
      match AnswerOf(ans, ids[idx])
      case None =>
        assert RouteFrom(ans, ids, idx) == Route(ids, Delivered(idx));
      case Some(LineBusy) =>
        if idx + 1 == |ids| {
          BusyLastShape(ans, ids, idx);
        } else {
          RouteShape(ans, ids, idx + 1);
          BusyShape(ans, ids, idx, RouteFrom(ans, ids, idx + 1));
        }
      case Some(Disconnected) =>
        var next := ids[..idx] + ids[idx + 1..];
        RemovedShaped(ans, ids, idx);
        RouteShape(ans, next, idx);
        DisconnectedShape(ans, ids, idx, next, RouteFrom(ans, next, idx).ids);
    }
  }

  /** Removing one place keeps the places increasing. */
  lemma RemovedShaped(ans: seq<Option<SendError>>, ids: seq<nat>, idx: nat)
    requires idx < |ids| && Shaped(ans, ids)
    ensures Shaped(ans, ids[..idx] + ids[idx + 1..])
  {
    var next := ids[..idx] + ids[idx + 1..];
    assert forall k :: 0 <= k < |next| ==> next[k] == if k < idx then ids[k] else ids[k + 1];
  }

  /** A busy last line makes the pool grow by the fresh line, which takes the stream. */
  lemma BusyLastShape(ans: seq<Option<SendError>>, ids: seq<nat>, idx: nat)
    requires idx + 1 == |ids| && Shaped(ans, ids) && AnswerOf(ans, ids[idx]) == Some(LineBusy)
    ensures var r := RouteFrom(ans, ids, idx);
      Shaped(ans, r.ids) && Reshapes(ans, ids, r.ids, idx) && Delivers(ans, r, idx)
  {
    var next := ids + [|ans|];
    assert AnswerOf(ans, next[idx + 1]) == None;
    assert RouteFrom(ans, ids, idx) == Route(next, Delivered(idx + 1));
    assert Shaped(ans, next);
    assert next[..idx] == ids[..idx];
  }

  /** Passing a busy line that is not the last keeps what the rest of the routing promises. */
  lemma BusyShape(ans: seq<Option<SendError>>, ids: seq<nat>, idx: nat, r: Route)
    requires idx + 1 < |ids| && AnswerOf(ans, ids[idx]) == Some(LineBusy)
    requires Reshapes(ans, ids, r.ids, idx + 1) && Delivers(ans, r, idx + 1)
    ensures Reshapes(ans, ids, r.ids, idx) && Delivers(ans, r, idx)
  {
    assert r.ids[..idx] == r.ids[..idx + 1][..idx];
    assert r.ids[idx] == ids[idx] by {
      assert r.ids[..idx + 1][idx] == ids[..idx + 1][idx];
    }
  }

  /** Removing place `idx` loses that place's line and no other. */
  lemma RemovedMembers(ids: seq<nat>, idx: nat)
    requires idx < |ids|
    ensures forall id :: id in ids && id != ids[idx] ==> id in ids[..idx] + ids[idx + 1..]
    ensures forall id :: id in ids[..idx] + ids[idx + 1..] ==> id in ids
  {
    var next := ids[..idx] + ids[idx + 1..];
    forall id | id in ids && id != ids[idx]
      ensures id in next
    {
      var k :| 0 <= k < |ids| && ids[k] == id;
      if k < idx {
        assert next[k] == id;
      } else {
        assert next[k - 1] == id;
      }
    }
    forall id | id in next
      ensures id in ids
    {
      var k :| 0 <= k < |next| && next[k] == id;
      if k < idx {
        assert ids[k] == id;
      } else {
        assert ids[k + 1] == id;
      }
    }
  }

  /** Removing a disconnected line keeps what the rest of the routing promises. */
  lemma DisconnectedShape(ans: seq<Option<SendError>>, ids: seq<nat>, idx: nat, next: seq<nat>, r: seq<nat>)
    requires idx < |ids| && AnswerOf(ans, ids[idx]) == Some(Disconnected)
    requires next == ids[..idx] + ids[idx + 1..]
    requires Reshapes(ans, next, r, idx)
    ensures Reshapes(ans, ids, r, idx)
  {
    assert next[..idx] == ids[..idx];
    RemovedMembers(ids, idx);
  }

  /** With a cap of at least one, handling a stream never takes the pool past its cap: it adds a line at most. */
  lemma HandlingBound(ans: seq<Option<SendError>>, ids: seq<nat>, maxLine: nat)
    requires maxLine >= 1 && |ids| <= maxLine && Shaped(ans, ids)
    ensures |Handling(ans, ids, maxLine).ids| <= maxLine
    ensures |Handling(ans, ids, maxLine).ids| <= |ids| + 1
  {
    if ids == [] {
      var one := [|ans|];
      assert Shaped(ans, one);
      if maxLine != 1 {
        RouteShape(ans, one, 0);
      }
    } else if |ids| != maxLine {
      RouteShape(ans, ids, 0);
    }
  }

  /**
    A cap of one line takes no stream at all: the first stream creates the
    line and then finds the pool at its cap, and so does every later one.
   */
  lemma OneLineCapRefuses(ans: seq<Option<SendError>>, ids: seq<nat>)
    requires |ids| <= 1
    ensures Handling(ans, ids, 1).outcome == Full
  {
  }

  /** A pool at its cap is found full, and its lines stay where they are. */
  lemma CapRoutes(ls: seq<Line>, ans: seq<Option<SendError>>, maxLine: nat)
    requires |ls| == |ans| == maxLine > 0
    ensures Handling(ans, Iota(maxLine), maxLine) == Route(Iota(maxLine), Full)
    ensures Routed(ls, Iota(maxLine), ans, ls, ls)
  {
  }

  /** The answers of a list of lines, in order. */
  function Answers(ls: seq<Line>): (r: seq<Option<SendError>>)
    reads ls
    ensures |r| == |ls| && forall i :: 0 <= i < |ls| ==> r[i] == ls[i].Answer()
  {
    if ls == [] then [] else [ls[0].Answer()] + Answers(ls[1..])
  }

  /** The lines of a pool: distinct objects, each valid and still owned. */
  ghost predicate Owned(ls: seq<Line>)
    reads ls
  {
    && (forall i, j :: 0 <= i < j < |ls| ==> ls[i] != ls[j])
    && (forall i :: 0 <= i < |ls| ==> ls[i].Valid() && !ls[i].dropped)
  }

  /**
    Offering the stream to line `idx` changes that line at most and keeps the
    lines owned; when the line takes it, the stream was delivered there.
   */
  method Offer(ls: seq<Line>, idx: nat, s: StreamId, ghost ans: seq<Option<SendError>>, ghost ids: seq<nat>, ghost orig: seq<Line>)
    returns (r: SendResult)
    requires Tracks(ls, ids, ans, orig) && idx < |ls|
    modifies ls[idx]
    ensures Owned(ls)
    ensures r == (match old(ls[idx].Answer()) case None => Sent case Some(e) => Refused(s, e))
    ensures r == Sent ==> Sends(ls, Delivered(idx), s, idx, ans, ids, orig, ls)
    ensures r != Sent ==> unchanged(ls[idx])
  {
    TracksRouted(ls, ids, ans, orig);
    r := ls[idx].Send(s);
  }

  /** `lines.push(Line::new(..))`: a new line at the back. */
  method Grow(ls: seq<Line>) returns (grown: seq<Line>)
    requires Owned(ls)
    ensures Owned(grown) && |grown| == |ls| + 1 && grown[..|ls|] == ls
    ensures fresh(grown[|ls|]) && grown[|ls|].buffer == [] && !grown[|ls|].closed
  {
    var l := new Line();
    grown := ls + [l];
    assert grown[..|ls|] == ls;
  }

  /** `lines.remove(idx)`: the line leaves the list and is dropped, which only logs on a closed channel. */
  method Prune(ls: seq<Line>, idx: nat) returns (pruned: seq<Line>)
    requires Owned(ls) && idx < |ls| && ls[idx].closed
    modifies ls[idx]
    ensures Owned(pruned) && pruned == ls[..idx] + ls[idx + 1..]
    ensures forall k :: 0 <= k < |pruned| ==> unchanged(pruned[k])
    ensures ls[idx].dropped
  {
    var gone := ls[idx];
    pruned := ls[..idx] + ls[idx + 1..];
    OwnedRemoval(ls, idx);
    assert forall k :: 0 <= k < |pruned| ==> pruned[k] == if k < idx then ls[k] else ls[k + 1];
    var d := gone.Drop();
  }

  /**
    Lines `ls` stand for places `ids` of the pool `orig` that answered `ans`:
    each old line is the same object and still answers as it did, and a
    line at the fresh place is new and empty.
   */
  ghost predicate Tracks(ls: seq<Line>, ids: seq<nat>, ans: seq<Option<SendError>>, orig: seq<Line>)
    reads ls
  {
    && Owned(ls) && |ls| == |ids| && Shaped(ans, ids) && |orig| == |ans|
    && (forall k :: 0 <= k < |ls| ==> ls[k].Answer() == AnswerOf(ans, ids[k]))
    && (forall k :: 0 <= k < |ls| && ids[k] < |ans| ==> ls[k] == orig[ids[k]])
    && (forall k :: 0 <= k < |ls| && ids[k] == |ans| ==> ls[k] !in orig && ls[k].buffer == [])
  }

  /** The pool as it stands tracks itself. */
  lemma TracksItself(ls: seq<Line>)
    requires Owned(ls)
    ensures Tracks(ls, Iota(|ls|), Answers(ls), ls)
  {
  }

  /**
    Lines `after` are the result of routing over `ls` that ended with places
    `rids`: an old place is the same object, which was
    in `ls`, and the fresh place is a line not in the pool before.
   */
  ghost predicate Routed(after: seq<Line>, rids: seq<nat>, ans: seq<Option<SendError>>, orig: seq<Line>, ls: seq<Line>) {
    && |after| == |rids| && |orig| == |ans|
    && (forall k :: 0 <= k < |after| && rids[k] < |ans| ==> after[k] == orig[rids[k]])
    && (forall k :: 0 <= k < |after| && rids[k] == |ans| ==> after[k] !in orig)
    && (forall k :: 0 <= k < |after| && after[k] in orig ==> after[k] in ls)
  }

  /**
    What handing stream `s` to the lines did to them: every line of `orig`
    that is still there and did not take the stream is unchanged, and the
    line that took it has it at the back of its buffer (a new line holds
    only it).
   */
  twostate predicate Settles(new after: seq<Line>, orig: seq<Line>, s: StreamId, outcome: Outcome)
    reads after
  {
    && (forall k :: 0 <= k < |after| && outcome != Delivered(k) && after[k] in orig ==> unchanged(after[k]))
    && (outcome.Delivered? ==> outcome.at < |after|)
    && (outcome.Delivered? && after[outcome.at] in orig ==> after[outcome.at].buffer == old(after[outcome.at].buffer) + [Stream(s)])
    && (outcome.Delivered? && after[outcome.at] !in orig ==> after[outcome.at].buffer == [Stream(s)])
  }

  /**
    Handing stream `s` to lines `ls`, which stand for places `ids` of the
    pool `orig`, from index `idx` on, ended with lines `after` and `outcome`
    as `RouteFrom` says: the lines are still owned, routed as `RouteFrom`
    routes the places, and settled as the outcome says.
   */
  twostate predicate Sends(new after: seq<Line>, outcome: Outcome, s: StreamId, idx: nat,
                           ans: seq<Option<SendError>>, ids: seq<nat>, orig: seq<Line>, ls: seq<Line>)
    reads after
  {
    && Owned(after) && idx <= |ids|
    && outcome == RouteFrom(ans, ids, idx).outcome && Routed(after, RouteFrom(ans, ids, idx).ids, ans, orig, ls)
    && Settles(after, orig, s, outcome)
  }

  /** Lines that track their places are, as they stand, routed over those places. */
  lemma TracksRouted(ls: seq<Line>, ids: seq<nat>, ans: seq<Option<SendError>>, orig: seq<Line>)
    requires Tracks(ls, ids, ans, orig)
    ensures Routed(ls, ids, ans, orig, ls)
  {
  }

  /**
    The routing of `send_to_line(s, idx)`, recursive as in the source, over lines `ls` that
    stand for places `ids` of the pool `orig`. The lines it ends with and the
    outcome are those `RouteFrom` gives: a line that was kept is the same
    object and was in the list, a line that was added is new, the line that
    took the stream has it at the back of its buffer, and every other kept
    line is untouched.
   */
  method SendFrom(ls: seq<Line>, s: StreamId, idx: nat, ghost ans: seq<Option<SendError>>, ghost ids: seq<nat>, ghost orig: seq<Line>)
    returns (after: seq<Line>, outcome: Outcome)
    requires idx <= |ls| && Tracks(ls, ids, ans, orig)
    modifies ls
    ensures Sends(after, outcome, s, idx, ans, ids, orig, ls)
    decreases |ids| - idx, if ids != [] && AnswerOf(ans, ids[|ids| - 1]) == None then 0 else 1, 2
  {
    TracksRouted(ls, ids, ans, orig);
    if idx == |ls| {
      return ls, OutOfRange;
    }
    var r := Offer(ls, idx, s, ans, ids, orig);
    if r == Sent {
      return ls, Delivered(idx);
    }
    if r.error == LineBusy {
      after, outcome := PassBusy(ls, s, idx, ans, ids, orig);
    } else {
      after, outcome := PassDisconnected(ls, s, idx, ans, ids, orig);
    }
  }

  /** A busy line passes the stream on to the next one, adding a line first when it was the last. */
  method PassBusy(ls: seq<Line>, s: StreamId, idx: nat, ghost ans: seq<Option<SendError>>, ghost ids: seq<nat>, ghost orig: seq<Line>)
    returns (after: seq<Line>, outcome: Outcome)
    requires idx < |ls| && Tracks(ls, ids, ans, orig) && AnswerOf(ans, ids[idx]) == Some(LineBusy)
    modifies ls
    ensures Sends(after, outcome, s, idx, ans, ids, orig, ls)
    decreases |ids| - idx, if ids != [] && AnswerOf(ans, ids[|ids| - 1]) == None then 0 else 1, 1
  {
    if idx + 1 == |ls| {
      after, outcome := PassToNewLine(ls, s, idx, ans, ids, orig);
    } else {
      after, outcome := SendFrom(ls, s, idx + 1, ans, ids, orig);
    }
  }

  /** The last line was busy: a new line goes at the back, and it takes the stream. */
  method PassToNewLine(ls: seq<Line>, s: StreamId, idx: nat, ghost ans: seq<Option<SendError>>, ghost ids: seq<nat>, ghost orig: seq<Line>)
    returns (after: seq<Line>, outcome: Outcome)
    requires idx + 1 == |ls| && Tracks(ls, ids, ans, orig) && AnswerOf(ans, ids[idx]) == Some(LineBusy)
    modifies ls
    ensures Sends(after, outcome, s, idx, ans, ids, orig, ls)
    decreases |ids| - idx, if ids != [] && AnswerOf(ans, ids[|ids| - 1]) == None then 0 else 1, 0
  {
    var next := Grow(ls);
    ghost var nextIds := ids + [|ans|];
    GrownTracks(ls, ids, ans, orig, next);
    after, outcome := SendFrom(next, s, idx + 1, ans, nextIds, orig);
  }

  /** A disconnected line is removed and the same index is tried again. */
  method PassDisconnected(ls: seq<Line>, s: StreamId, idx: nat, ghost ans: seq<Option<SendError>>, ghost ids: seq<nat>, ghost orig: seq<Line>)
    returns (after: seq<Line>, outcome: Outcome)
    requires idx < |ls| && Tracks(ls, ids, ans, orig) && AnswerOf(ans, ids[idx]) == Some(Disconnected)
    modifies ls
    ensures Sends(after, outcome, s, idx, ans, ids, orig, ls)
    decreases |ids| - idx, if ids != [] && AnswerOf(ans, ids[|ids| - 1]) == None then 0 else 1, 1
  {
    ghost var nextIds := ids[..idx] + ids[idx + 1..];
    PrunedTracks(ls, ids, ans, orig, idx, ls[..idx] + ls[idx + 1..]);
    ghost var gone := ls[idx];
    var pruned := Prune(ls, idx);
    label prunedNow:
    assert gone !in pruned;
    after, outcome := SendFrom(pruned, s, idx, ans, nextIds, orig);
    DisconnectedRouted(after, ans, ids, idx, orig, ls, pruned);
    forall k | 0 <= k < |after| && after[k] in orig
      ensures old(after[k].buffer) == old@prunedNow(after[k].buffer)
      ensures unchanged@prunedNow(after[k]) ==> unchanged(after[k])
    {
      assert after[k] in pruned && after[k] != gone;
    }
  }

  /** Routing after the removal of a disconnected line is the routing of the whole list. */
  lemma DisconnectedRouted(after: seq<Line>, ans: seq<Option<SendError>>, ids: seq<nat>, idx: nat, orig: seq<Line>,
                           ls: seq<Line>, pruned: seq<Line>)
    requires idx < |ids| && idx < |ls| && AnswerOf(ans, ids[idx]) == Some(Disconnected)
    requires pruned == ls[..idx] + ls[idx + 1..]
    requires Routed(after, RouteFrom(ans, ids[..idx] + ids[idx + 1..], idx).ids, ans, orig, pruned)
    ensures Routed(after, RouteFrom(ans, ids, idx).ids, ans, orig, ls)
  {
    assert RouteFrom(ans, ids, idx) == RouteFrom(ans, ids[..idx] + ids[idx + 1..], idx);
    forall k | 0 <= k < |after| && after[k] in orig
      ensures after[k] in ls
    {
      assert after[k] in pruned;
    }
  }

  /** A fresh line at the back stands for the fresh place. */
  lemma GrownTracks(ls: seq<Line>, ids: seq<nat>, ans: seq<Option<SendError>>, orig: seq<Line>, next: seq<Line>)
    requires Tracks(ls, ids, ans, orig) && ids != [] && AnswerOf(ans, ids[|ids| - 1]) == Some(LineBusy)
    requires Owned(next) && |next| == |ls| + 1 && next[..|ls|] == ls
    requires next[|ls|] !in orig && next[|ls|].buffer == [] && !next[|ls|].closed
    ensures Tracks(next, ids + [|ans|], ans, orig)
  {
    var nextIds := ids + [|ans|];
    GrownShaped(ans, ids);
    forall k | 0 <= k < |next|
      ensures next[k].Answer() == AnswerOf(ans, nextIds[k])
      ensures nextIds[k] < |ans| ==> next[k] == orig[nextIds[k]]
      ensures nextIds[k] == |ans| ==> next[k] !in orig && next[k].buffer == []
    {
      if k < |ls| {
        assert next[k] == ls[k] && nextIds[k] == ids[k];
      }
    }
  }

  /** The fresh place after an old last place keeps the places increasing. */
  lemma GrownShaped(ans: seq<Option<SendError>>, ids: seq<nat>)
    requires Shaped(ans, ids) && ids != [] && ids[|ids| - 1] < |ans|
    ensures Shaped(ans, ids + [|ans|])
  {
    var next := ids + [|ans|];
    forall i, j | 0 <= i < j < |next|
      ensures next[i] < next[j]
    {
      if j < |ids| {
        assert next[i] == ids[i] && next[j] == ids[j];
      } else {
        assert next[i] == ids[i] <= ids[|ids| - 1];
      }
    }
  }

  /** Dropping line `idx` and place `idx` together keeps the lines standing for their places. */
  lemma PrunedTracks(ls: seq<Line>, ids: seq<nat>, ans: seq<Option<SendError>>, orig: seq<Line>, idx: nat, pruned: seq<Line>)
    requires Tracks(ls, ids, ans, orig) && idx < |ls|
    requires pruned == ls[..idx] + ls[idx + 1..]
    ensures Tracks(pruned, ids[..idx] + ids[idx + 1..], ans, orig)
  {
    var nextIds := ids[..idx] + ids[idx + 1..];
    RemovedShaped(ans, ids, idx);
    OwnedRemoval(ls, idx);
    forall k | 0 <= k < |pruned|
      ensures pruned[k].Answer() == AnswerOf(ans, nextIds[k])
      ensures nextIds[k] < |ans| ==> pruned[k] == orig[nextIds[k]]
      ensures nextIds[k] == |ans| ==> pruned[k] !in orig && pruned[k].buffer == []
    {
      var j := if k < idx then k else k + 1;
      assert pruned[k] == ls[j] && nextIds[k] == ids[j];
    }
  }

  /** Removing one line keeps the rest owned. */
  lemma OwnedRemoval(ls: seq<Line>, idx: nat)
    requires Owned(ls) && idx < |ls|
    ensures Owned(ls[..idx] + ls[idx + 1..])
  {
    var pruned := ls[..idx] + ls[idx + 1..];
    assert forall k :: 0 <= k < |pruned| ==> pruned[k] == ls[if k < idx then k else k + 1];
  }

  /** The pool's own lines and streams: `LinePool`. */
  class LinePool {
    var lines: seq<Line>
    const maxLine: nat
    /** The dispatcher every line's handler consults (`http_muxer`). */
    var httpMuxer: Muxer
    /** The streams shut down because the pool was at its cap, in order. */
    var shut: seq<StreamId>

    ghost predicate Valid()
      reads this, lines
    {
      Owned(lines)
    }

    /** `LinePool::new(max_line)`: no lines and an empty dispatcher. */
    constructor(maxLine: nat)
      ensures Valid() && lines == [] && shut == [] && this.maxLine == maxLine
      ensures fresh(httpMuxer) && httpMuxer.filters == [] && httpMuxer.routes == map[]
    {
      lines := [];
      this.maxLine := maxLine;
      httpMuxer := new Muxer();
      shut := [];
    }

    /** `add_new_line`: a new, empty line at the back. */
    method AddNewLine()
      requires Valid()
      modifies this
      ensures Valid() && |lines| == old(|lines|) + 1 && lines[..old(|lines|)] == old(lines)
      ensures fresh(lines[old(|lines|)]) && lines[old(|lines|)].buffer == [] && !lines[old(|lines|)].closed
      ensures shut == old(shut) && httpMuxer == old(httpMuxer)
    {
      lines := Grow(lines);
    }

    /**
      `handle(s)`: an empty pool gets its first line and the stream is handled
      again; a pool at its cap shuts the stream down and tries no line;
      otherwise the lines are tried from the first. The result is what
      `Handling` gives for what the lines answer now.
     */
    method Handle(s: StreamId) returns (outcome: Outcome)
      requires Valid()
      modifies this, lines
      ensures Valid() && httpMuxer == old(httpMuxer)
      ensures var r := Handling(old(Answers(lines)), Iota(old(|lines|)), maxLine);
        outcome == r.outcome && Routed(lines, r.ids, old(Answers(lines)), old(lines), old(lines))
      ensures Settles(lines, old(lines), s, outcome)
      ensures shut == if outcome == Full then old(shut) + [s] else old(shut)
      decreases if lines == [] then 1 else 0
    {
      if |lines| == 0 {
        AddNewLine();
        EmptyPoolHandling(maxLine);
        outcome := Handle(s);
      } else if |lines| == maxLine {
        CapRoutes(lines, Answers(lines), maxLine);
        ShutDown(s);
        outcome := Full;
      } else {
        outcome := SendToLine(s);
      }
    }

    /** `stream.shutdown(Shutdown::Both)`: the stream is recorded as shut down. */
    method ShutDown(s: StreamId)
      modifies this
      ensures shut == old(shut) + [s] && lines == old(lines) && httpMuxer == old(httpMuxer)
    {
      shut := shut + [s];
    }

    /**
      `send_to_line(s, 0)` on a pool with lines, below its cap: the lines are
      tried from the first as `RouteFrom` says, and no stream is shut down.
     */
    method SendToLine(s: StreamId) returns (outcome: Outcome)
      requires Valid() && lines != [] && |lines| != maxLine
      modifies this, lines
      ensures Valid() && httpMuxer == old(httpMuxer) && shut == old(shut)
      ensures var r := Handling(old(Answers(lines)), Iota(old(|lines|)), maxLine);
        outcome == r.outcome && outcome != Full && Routed(lines, r.ids, old(Answers(lines)), old(lines), old(lines))
      ensures Settles(lines, old(lines), s, outcome)
    {
      ghost var ans, ids := Answers(lines), Iota(|lines|);
      HandlingRoutes(ans, ids, maxLine);
      TracksItself(lines);
      lines, outcome := SendFrom(lines, s, 0, ans, ids, lines);
    }
  }

  /** An empty pool is handled as a pool of one fresh line. */
  lemma EmptyPoolHandling(maxLine: nat)
    ensures Handling([], Iota(0), maxLine) == Handling([None], Iota(1), maxLine)
  {
    assert Iota(1) == [0];
  }

  /** The decimal renderings the pool's own answers need. */
  lemma AnswerNumbers()
    ensures Decimal(404) == "404" && Decimal(500) == "500" && Decimal(9) == "9" && Decimal(14) == "14"
  {
    assert Decimal(4) == "4" && Decimal(40) == "40";
    assert Decimal(5) == "5" && Decimal(50) == "50" && Decimal(0) == "0";
    assert Decimal(1) == "1";
  }

  /** The pool's 404 answer, written out. */
  lemma NotFoundText()
    ensures PlainText("HTTP/1.x", 404, "Not Found", "Not Found")
         == "HTTP/1.x" + " " + "404" + " " + "Not Found" + "\r\n" + "Content-Length" + ": " + "9" + "\r\n" + "\r\n" + "Not Found"
  {
    assert Decimal(404) == "404" && Decimal(9) == "9" by { AnswerNumbers(); }
  }

  /** The pool's 500 answer to a handler that did not answer, written out. */
  lemma EmptyResponseText()
    ensures PlainText("HTTP/1.x", 500, "Empty Response", "Empty Response")
         == "HTTP/1.x" + " " + "500" + " " + "Empty Response" + "\r\n" + "Content-Length" + ": " + "14" + "\r\n" + "\r\n" + "Empty Response"
  {
    assert Decimal(500) == "500" && Decimal(14) == "14" by { AnswerNumbers(); }
  }

  /**
    The closing part of the closure: without a handler the answer is 404
    "Not Found"; with one, the handler runs, modelled by the body it answers
    with, if any, and a handler that did not answer is covered by a 500
    "Empty Response".
   */
  method Conclude(found: bool, handlerBody: Option<string>) returns (r: Result<()>, written: string)
    ensures r == Ok(())
    ensures !found ==> written == PlainText("HTTP/1.x", 404, "Not Found", "Not Found")
    ensures found && handlerBody.None? ==> written == PlainText("HTTP/1.x", 500, "Empty Response", "Empty Response")
    ensures found && handlerBody.Some? ==> written == PlainText("HTTP/1.x", 200, "OK", handlerBody.value)
  {
    var res := new Res("");
    ghost var keys;
    r := Ok(());
    if found {
      if handlerBody.Some? {
        r, keys := res.Respond(handlerBody.value);
        PlainResponse("HTTP/1.x", 200, "OK", keys, handlerBody.value);
      }
      if !res.Responded() {
        res.SetStatus(500, "Empty Response");
        r, keys := res.Respond("Empty Response");
        PlainResponse("HTTP/1.x", 500, "Empty Response", keys, "Empty Response");
      }
    } else {
      res.SetStatus(404, "Not Found");
      r, keys := res.Respond("Not Found");
      PlainResponse("HTTP/1.x", 404, "Not Found", keys, "Not Found");
    }
    written := res.out;
  }

  /**
    The per-stream closure of `get_muxer`: the request is read (a failure
    ends the closure with that error and nothing written), the dispatcher is
    asked for a handler, and the answer is concluded as above.
   */
  method ServeStream(input: string, mux: Muxer, handlerBody: Option<string>) returns (r: Result<()>, written: string)
    ensures Parse(input).Err? ==> r == Err(Parse(input).error) && written == ""
    ensures Parse(input).Ok? ==> r == Ok(())
    ensures Parse(input).Ok? && Dispatch(mux.routes, mux.filters, Parse(input).value).None? ==>
      written == PlainText("HTTP/1.x", 404, "Not Found", "Not Found")
    ensures Parse(input).Ok? && Dispatch(mux.routes, mux.filters, Parse(input).value).Some? && handlerBody.None? ==>
      written == PlainText("HTTP/1.x", 500, "Empty Response", "Empty Response")
    ensures Parse(input).Ok? && Dispatch(mux.routes, mux.filters, Parse(input).value).Some? && handlerBody.Some? ==>
      written == PlainText("HTTP/1.x", 200, "OK", handlerBody.value)
  {
    var parsed := New(input);
    if parsed.Err? {
      return Err(parsed.error), "";
    }
    var found;
    ghost var calls;
    found, calls := mux.GetHandler(parsed.value);
    r, written := Conclude(found.Some?, handlerBody);
  }
}
