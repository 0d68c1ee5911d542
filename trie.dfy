/**
  The compressed path trie of src/server/http/trie.rs.

  A node is either a Passby carrying a path segment and an ordered list of
  children, or a Terminal carrying a method and a handler. The tree is owned
  (each node boxes its children), so it is modelled as a value; `append`
  rewrites it in place in the source and returns the rewritten tree here.

  The definitions below are the behaviour of the code as written, including
  three ways in which a lookup does not find what was inserted (see the lemmas
  at the end): an extension of a route that ends at a node whose last child is
  a Terminal is dropped, a Terminal placed after Passby children cannot be
  reached, and a Terminal matches whatever text of the path is left over.
 */
module Tries {
  import opened Wrappers
  import opened Text
  import opened Methods
  import opened Handlers

  datatype Node =
    | Passby(segment: string, children: seq<Node>)
    | Terminal(verb: Method, handler: HandlerId)

  /** `Node::is_ahead_of`: only a Passby whose segment sorts strictly after `target` is ahead of it. */
  function IsAheadOf(n: Node, target: string): (r: bool)
    ensures r <==> n.Passby? && exists k: nat :: GreaterAt(n.segment, target, k)
  {
    if n.Passby? then GreaterIsLexicographic(n.segment, target); Greater(n.segment, target) else false
  }

  // ---------------------------------------------------------------------------
  // Inserting a Terminal (the `remain.is_empty()` branch of `append`)
  // ---------------------------------------------------------------------------

  /** Where the scan over the children puts a new Terminal. */
  datatype TerminalSlot = Replace(at: nat) | InsertBefore(at: nat) | AtEnd

  /** `ch[j]` is a Terminal for a method other than `m` that sorts above `m`. */
  ghost predicate PassedTerminal(ch: seq<Node>, m: Method, j: nat)
    requires j < |ch|
  {
    ch[j].Terminal? ==> ch[j].verb != m && !Less(ch[j].verb, m)
  }

  /**
    The scan from index `i`: the first Terminal of method `m` is replaced; else a
    new Terminal goes before the first Terminal of a smaller method; else at the end.
   */
  function TerminalSlotFrom(ch: seq<Node>, m: Method, i: nat): (r: TerminalSlot)
    requires i <= |ch|
    ensures r.Replace? ==> i <= r.at < |ch| && ch[r.at].Terminal? && ch[r.at].verb == m
    ensures r.InsertBefore? ==> i <= r.at < |ch| && ch[r.at].Terminal? && Less(ch[r.at].verb, m)
    ensures forall j :: i <= j < |ch| && (r.AtEnd? || j < r.at) ==> PassedTerminal(ch, m, j)
    decreases |ch| - i
  {
    if i >= |ch| then AtEnd
    else if ch[i].Terminal? && ch[i].verb == m then Replace(i)
    else if ch[i].Terminal? && Less(ch[i].verb, m) then InsertBefore(i)
    else
      var r := TerminalSlotFrom(ch, m, i + 1);
      assert PassedTerminal(ch, m, i) by { if ch[i].Terminal? { DerivedOrder(ch[i].verb, m); } }
      r
  }

  /** `children.push(x); children.swap_remove(i)`: `x` takes the place of `ch[i]`. */
  function PushSwapRemove(ch: seq<Node>, x: Node, i: nat): (r: seq<Node>)
    requires i < |ch|
    ensures r == ch[i := x]
  {
    var pushed := ch + [x];
    var swapped := pushed[i := pushed[|pushed| - 1]];
    assert swapped[..|ch|] == ch[i := x];
    swapped[..|swapped| - 1]
  }

  /** The children after `append("", m, h)`. */
  function WithTerminal(ch: seq<Node>, m: Method, h: HandlerId): seq<Node> {
    match TerminalSlotFrom(ch, m, 0)
    case Replace(i) => PushSwapRemove(ch, Terminal(m, h), i)
    case InsertBefore(i) => ch[..i] + [Terminal(m, h)] + ch[i..]
    case AtEnd => ch + [Terminal(m, h)]
  }

  // ---------------------------------------------------------------------------
  // Inserting a non-empty remainder (the scan over Passby children)
  // ---------------------------------------------------------------------------

  /** What the scan over the children decides for a non-empty remainder. */
  datatype Branch =
    | InsertAt(at: nat)              // a new `Passby(remain, [Terminal])` at this index
    | Descend(at: nat, shared: nat)  // the child's whole segment is a prefix of the remainder
    | Split(at: nat, shared: nat)    // the child shares a proper, non-empty prefix
    | Lost                           // no index was chosen: nothing is inserted

  /** The Passby children in `[lo, hi)` share nothing with `remain` and are not ahead of it. */
  ghost predicate Behind(ch: seq<Node>, remain: string, lo: nat, hi: nat)
    requires hi <= |ch|
  {
    forall j :: lo <= j < hi && ch[j].Passby? ==>
      Lcp(ch[j].segment, remain) == 0 && !Greater(ch[j].segment, remain)
  }

  /**
    The scan from index `i`. A child sharing a prefix with `remain` is descended
    into or split; a new branch goes before the first Passby that is ahead of
    `remain`, or after the last child when that child is a Passby, or at 0 when
    there are no children; when the last child is a Terminal nothing is chosen.
   */
  function BranchFrom(ch: seq<Node>, remain: string, i: nat): (r: Branch)
    requires i <= |ch|
    ensures r.InsertAt? ==> i <= r.at <= |ch| && Behind(ch, remain, i, r.at)
    ensures r.InsertAt? && r.at < |ch| ==>
      ch[r.at].Passby? && Lcp(ch[r.at].segment, remain) == 0 && Greater(ch[r.at].segment, remain)
    ensures r.InsertAt? && r.at == |ch| ==> |ch| == 0 || (i < |ch| && ch[|ch| - 1].Passby?)
    ensures (r.Descend? || r.Split?) ==>
      && i <= r.at < |ch| && ch[r.at].Passby? && Behind(ch, remain, i, r.at)
      && r.shared == Lcp(ch[r.at].segment, remain) && r.shared > 0
    ensures r.Descend? ==> r.shared == |ch[r.at].segment|
    ensures r.Split? ==> r.shared < |ch[r.at].segment|
    ensures r.Lost? ==> 0 < |ch| && Behind(ch, remain, i, |ch|) && (i < |ch| ==> ch[|ch| - 1].Terminal?)
    decreases |ch| - i
  {
    if i >= |ch| then
      if |ch| == 0 then InsertAt(0) else Lost
    else match ch[i]
      case Terminal(_, _) =>
        var r := BranchFrom(ch, remain, i + 1);
        BehindStep(ch, remain, i, if r.Lost? then |ch| else r.at);
        r
      case Passby(w, _) =>
        var k := Lcp(w, remain);
        if k == 0 then
          if Greater(w, remain) then InsertAt(i)
          else if i == |ch| - 1 then InsertAt(i + 1)
          else
            var r := BranchFrom(ch, remain, i + 1);
            BehindStep(ch, remain, i, if r.Lost? then |ch| else r.at);
            r
        else if k == |w| then Descend(i, k)
        else Split(i, k)
  }

  /** A child that is passed over by the scan extends the range it has passed. */
  lemma BehindStep(ch: seq<Node>, remain: string, i: nat, hi: nat)
    requires i < |ch| && hi <= |ch|
    requires ch[i].Passby? ==> Lcp(ch[i].segment, remain) == 0 && !Greater(ch[i].segment, remain)
    requires i + 1 <= hi ==> Behind(ch, remain, i + 1, hi)
    ensures i + 1 <= hi ==> Behind(ch, remain, i, hi)
  {
  }

  /** The child that a split makes of `Passby(w, gc)`: the shared part over the rest of the segment. */
  function SplitNode(w: string, gc: seq<Node>, k: nat): (r: Node)
    requires k <= |w|
    ensures r.Passby? && |r.children| == 1 && r.children[0].Passby?
    ensures r.segment + r.children[0].segment == w && |r.segment| == k
    ensures r.children[0].children == gc
  {
    Passby(w[..k], [Passby(w[k..], gc)])
  }

  /** `Node::append(remain, m, h)` as the code does it. */
  function Appended(n: Node, remain: string, m: Method, h: HandlerId): (r: Node)
    ensures r.Passby? <==> n.Passby?
    ensures n.Passby? ==> r.segment == n.segment
    decreases |remain|
  {
    match n
    case Terminal(_, _) => n
    case Passby(seg, ch) =>
      if remain == [] then Passby(seg, WithTerminal(ch, m, h))
      else match BranchFrom(ch, remain, 0)
        case InsertAt(i) => Passby(seg, ch[..i] + [Appended(Passby(remain, []), [], m, h)] + ch[i..])
        case Descend(i, k) => Passby(seg, ch[i := Appended(ch[i], remain[k..], m, h)])
        case Split(i, k) =>
          Passby(seg, ch[i := Appended(SplitNode(ch[i].segment, ch[i].children, k), remain[k..], m, h)])
        case Lost => n
  }

  /**
    `Node::iter_over_shared_chars`: advance two character iterators together
    while both have a next character and the two agree. The count is the
    length of the longest common prefix, and the iterators are left just past it.
   */
  method SharedChars(a: string, b: string) returns (k: nat, aRest: string, bRest: string)
    ensures k == Lcp(a, b)
    ensures aRest == a[k..] && bRest == b[k..]
  {
    k := 0;
    aRest, bRest := a, b;
    while aRest != [] && bRest != []
      invariant k <= |a| && k <= |b| && a[..k] == b[..k]
      invariant aRest == a[k..] && bRest == b[k..]
      decreases |aRest|
    {
      if aRest[0] != bRest[0] {
        break;
      }
      assert a[..k + 1] == a[..k] + [aRest[0]];
      assert b[..k + 1] == b[..k] + [bRest[0]];
      aRest, bRest := aRest[1..], bRest[1..];
      k := k + 1;
    }
    LcpUnique(a, b, k);
  }

  /**
    The `remain.is_empty()` branch of `append`: the scan for a Terminal of
    the same method or of a smaller one, then push/swap_remove, insert, or push.
   */
  method AppendTerminal(ch: seq<Node>, m: Method, h: HandlerId) returns (r: seq<Node>)
    ensures r == WithTerminal(ch, m, h)
  {
    var children := ch;
    var swapIdx: Option<nat> := None;
    var insertIdx: Option<nat> := None;
    var idx := 0;
    while idx < |children|
      invariant idx <= |children|
      invariant swapIdx.None? && insertIdx.None?
      invariant TerminalSlotFrom(children, m, idx) == TerminalSlotFrom(children, m, 0)
    {
      var child := children[idx];
      if child.Terminal? {
        if child.verb == m {
          swapIdx := Some(idx);
          break;
        } else if Less(child.verb, m) {
          insertIdx := Some(idx);
          break;
        }
      }
      idx := idx + 1;
    }
    if swapIdx.Some? {
      var i := swapIdx.value;
      children := children + [Terminal(m, h)];
      children := children[i := children[|children| - 1]];
      children := children[..|children| - 1];
      assert children == ch[i := Terminal(m, h)];
      return children;
    }
    if insertIdx.Some? {
      var i := insertIdx.value;
      return children[..i] + [Terminal(m, h)] + children[i..];
    }
    return children + [Terminal(m, h)];
  }

  /** `word.pop()` repeated until `shared` characters are left. */
  method PopTo(word: string, shared: nat) returns (w: string)
    requires shared <= |word|
    ensures w == word[..shared]
  {
    w := word;
    for j := 0 to |word| - shared
      invariant w == word[..|word| - j]
    {
      w := w[..|w| - 1];
    }
  }

  /**
    `Node::append(remain, m, h)`: the two scans over the children, the
    push/swap_remove and insert on the child list, the split of a child that
    shares a proper prefix (its word is popped down to the shared part), and
    the recursive appends.
   */
  method Append(n: Node, remain: string, m: Method, h: HandlerId) returns (r: Node)
    ensures r == Appended(n, remain, m, h)
    decreases |remain|
  {
    if n.Terminal? {
      return n;
    }
    var children := n.children;
    if remain == [] {
      children := AppendTerminal(children, m, h);
      return Passby(n.segment, children);
    }
    var insertionIdx: Option<nat> := None;
    var childrenLen := |children|;
    if childrenLen == 0 {
      insertionIdx := Some(0);
    }
    var idx := 0;
    while idx < |children|
      invariant idx <= |children| && children == n.children
      invariant insertionIdx.None? ==> 0 < |children| && BranchFrom(children, remain, idx) == BranchFrom(children, remain, 0)
      invariant insertionIdx.Some? ==> idx == |children| && BranchFrom(children, remain, 0) == InsertAt(insertionIdx.value)
    {
      var child := children[idx];
      if child.Passby? {
        var word := child.segment;
        var grandchildren := child.children;
        var shared, wordRest, remainRest := SharedChars(word, remain);
        if shared == 0 {
          if IsAheadOf(child, remain) {
            insertionIdx := Some(idx);
            break;
          } else if idx == childrenLen - 1 {
            insertionIdx := Some(idx + 1);
          }
          idx := idx + 1;
          continue;
        }
        if wordRest == [] {
          var appended := Append(child, remainRest, m, h);
          children := children[idx := appended];
          return Passby(n.segment, children);
        }
        var newPassby := Passby(wordRest, grandchildren);
        grandchildren := [newPassby];
        var w := PopTo(word, shared);
        var appended := Append(Passby(w, grandchildren), remainRest, m, h);
        children := children[idx := appended];
        break;
      }
      idx := idx + 1;
    }
    if insertionIdx.Some? {
      var newPassby := Append(Passby(remain, []), [], m, h);
      children := children[..insertionIdx.value] + [newPassby] + children[insertionIdx.value..];
      return Passby(n.segment, children);
    }
    return Passby(n.segment, children);
  }

  /** The insertion of `remain` under `n` ends at a scan that chooses no index, so nothing is inserted. */
  predicate Drops(n: Node, remain: string)
    decreases |remain|
  {
    n.Passby? && remain != [] &&
    match BranchFrom(n.children, remain, 0)
    case Lost => true
    case Descend(i, k) => Drops(n.children[i], remain[k..])
    case Split(i, k) => Drops(SplitNode(n.children[i].segment, n.children[i].children, k), remain[k..])
    case InsertAt(_) => false
  }

  // ---------------------------------------------------------------------------
  // Lookup
  // ---------------------------------------------------------------------------

  /** `Node::get(path, m)`. */
  function NodeGet(n: Node, path: string, m: Method): Option<HandlerId>
    decreases n, 1
  {
    match n
    case Terminal(tm, h) => if tm == m then Some(h) else None
    case Passby(w, ch) => if !StartsWith(path, w) then None else ChildrenGet(ch, path[|w|..], m)
  }

  /** The loop of `Node::get` over the children: stop at the first child ahead of `rest`, else return the first hit. */
  function ChildrenGet(ch: seq<Node>, rest: string, m: Method): Option<HandlerId>
    decreases ch, 0
  {
    if ch == [] then None
    else if IsAheadOf(ch[0], rest) then None
    else match NodeGet(ch[0], rest, m)
      case Some(h) => Some(h)
      case None => ChildrenGet(ch[1..], rest, m)
  }

  // ---------------------------------------------------------------------------
  // The routes a tree holds
  // ---------------------------------------------------------------------------

  datatype Route = Route(path: string, verb: Method, handler: HandlerId)

  /** The routes of the Terminals under `n`: the segments on the way down, after `prefix`, with the Terminal's method and handler. */
  function Routes(n: Node, prefix: string): set<Route>
    decreases n, 1
  {
    match n
    case Terminal(m, h) => {Route(prefix, m, h)}
    case Passby(w, ch) => RoutesOf(ch, prefix + w)
  }

  function RoutesOf(ch: seq<Node>, prefix: string): set<Route>
    decreases ch, 0
  {
    if ch == [] then {} else Routes(ch[0], prefix) + RoutesOf(ch[1..], prefix)
  }

  // ---------------------------------------------------------------------------
  // The order a node keeps among its children
  // ---------------------------------------------------------------------------

  /** The Terminals among `ch` are in strictly descending method order, so there is at most one per method. */
  ghost predicate TerminalsDescending(ch: seq<Node>) {
    forall i, j :: 0 <= i < j < |ch| && ch[i].Terminal? && ch[j].Terminal? ==> Less(ch[j].verb, ch[i].verb)
  }

  /** The Passby children have non-empty segments whose first characters strictly increase. */
  ghost predicate PassbysAscending(ch: seq<Node>) {
    && (forall i :: 0 <= i < |ch| && ch[i].Passby? ==> ch[i].segment != [])
    && (forall i, j :: 0 <= i < j < |ch| && ch[i].Passby? && ch[j].Passby? && ch[i].segment != [] && ch[j].segment != [] ==>
          ch[i].segment[0] < ch[j].segment[0])
  }

  /** Every node below `n` keeps both orders among its children. */
  ghost predicate WellFormed(n: Node)
    decreases n
  {
    n.Passby? ==>
      && TerminalsDescending(n.children) && PassbysAscending(n.children)
      && forall i :: 0 <= i < |n.children| ==> WellFormed(n.children[i])
  }

  /** A Terminal of an existing method is replaced where it stands and the number of children does not change. */
  lemma WithTerminalReplaces(ch: seq<Node>, m: Method, h: HandlerId, j: nat)
    requires TerminalsDescending(ch)
    requires j < |ch| && ch[j].Terminal? && ch[j].verb == m
    ensures WithTerminal(ch, m, h) == ch[j := Terminal(m, h)]
    ensures |WithTerminal(ch, m, h)| == |ch|
  {
    SlotFindsTerminal(ch, m, 0, j);
  }

  /** Under the descending order, the scan from any index up to `j` stops at the Terminal of method `m` at `j`. */
  lemma {:induction false} SlotFindsTerminal(ch: seq<Node>, m: Method, i: nat, j: nat)
    requires TerminalsDescending(ch)
    requires i <= j < |ch| && ch[j].Terminal? && ch[j].verb == m
    ensures TerminalSlotFrom(ch, m, i) == Replace(j)
    decreases j - i
  {
    if i < j {
      if ch[i].Terminal? {
        DerivedOrder(ch[i].verb, m);
      }
      SlotFindsTerminal(ch, m, i + 1, j);
    }
  }

  /** A new Terminal keeps the Terminals in strictly descending order, and it is among the children afterwards. */
  lemma WithTerminalKeepsOrder(ch: seq<Node>, m: Method, h: HandlerId)
    requires TerminalsDescending(ch)
    ensures TerminalsDescending(WithTerminal(ch, m, h))
    ensures Terminal(m, h) in WithTerminal(ch, m, h)
  {
    var t := Terminal(m, h);
    match TerminalSlotFrom(ch, m, 0)
    case Replace(i) =>
      assert ch[i := t][i] == t;
    case InsertBefore(i) =>
      InsertBeforeKeepsOrder(ch, m, h, i);
      assert (ch[..i] + [t] + ch[i..])[i] == t;
    case AtEnd =>
      AtEndKeepsOrder(ch, m, h);
      assert (ch + [t])[|ch|] == t;
  }

  /** When no Terminal of the method is there, the new Terminal is added and every old child is kept. */
  lemma WithTerminalAdds(ch: seq<Node>, m: Method, h: HandlerId)
    requires forall j :: 0 <= j < |ch| && ch[j].Terminal? ==> ch[j].verb != m
    ensures multiset(WithTerminal(ch, m, h)) == multiset(ch) + multiset{Terminal(m, h)}
  {
    match TerminalSlotFrom(ch, m, 0)
    case Replace(i) =>
    case InsertBefore(i) =>
      assert ch == ch[..i] + ch[i..];
    case AtEnd =>
  }

  /** A new Terminal leaves the Passby children as they were, in the same order. */
  lemma WithTerminalKeepsPassbys(ch: seq<Node>, m: Method, h: HandlerId)
    ensures Passbys(WithTerminal(ch, m, h)) == Passbys(ch)
  {
    var t := Terminal(m, h);
    match TerminalSlotFrom(ch, m, 0)
    case Replace(i) =>
      assert ch[i := t] == ch[..i] + [t] + ch[i + 1..];
      assert ch == ch[..i] + [ch[i]] + ch[i + 1..];
      PassbysConcat3(ch[..i], [t], ch[i + 1..]);
      PassbysConcat3(ch[..i], [ch[i]], ch[i + 1..]);
    case InsertBefore(i) =>
      assert ch == ch[..i] + [] + ch[i..];
      PassbysConcat3(ch[..i], [t], ch[i..]);
      PassbysConcat3(ch[..i], [], ch[i..]);
    case AtEnd =>
      assert ch + [t] == ch + [t] + [];
      assert ch == ch + [] + [];
      PassbysConcat3(ch, [t], []);
      PassbysConcat3(ch, [], []);
  }

  lemma InsertBeforeKeepsOrder(ch: seq<Node>, m: Method, h: HandlerId, i: nat)
    requires TerminalsDescending(ch)
    requires TerminalSlotFrom(ch, m, 0) == InsertBefore(i)
    ensures TerminalsDescending(ch[..i] + [Terminal(m, h)] + ch[i..])
  {
    var r := ch[..i] + [Terminal(m, h)] + ch[i..];
    forall a, b | 0 <= a < b < |r| && r[a].Terminal? && r[b].Terminal? ensures Less(r[b].verb, r[a].verb) {
      if b == i {
        DerivedOrder(ch[a].verb, m);
        assert PassedTerminal(ch, m, a);
      } else if b > i {
        assert r[b] == ch[b - 1];
        if b - 1 > i {
          assert Less(ch[b - 1].verb, ch[i].verb);
        }
        if a < i {
          DerivedOrder(ch[a].verb, m);
          assert PassedTerminal(ch, m, a);
        } else if a > i {
          assert r[a] == ch[a - 1];
        }
      }
    }
  }

  lemma AtEndKeepsOrder(ch: seq<Node>, m: Method, h: HandlerId)
    requires TerminalsDescending(ch)
    requires TerminalSlotFrom(ch, m, 0) == AtEnd
    ensures TerminalsDescending(ch + [Terminal(m, h)])
  {
    var r := ch + [Terminal(m, h)];
    forall a, b | 0 <= a < b < |r| && r[a].Terminal? && r[b].Terminal? ensures Less(r[b].verb, r[a].verb) {
      if b == |ch| {
        DerivedOrder(ch[a].verb, m);
        assert PassedTerminal(ch, m, a);
      }
    }
  }

  /** The Passby children of `ch`, in order. */
  function Passbys(ch: seq<Node>): (r: seq<Node>)
    ensures forall i :: 0 <= i < |r| ==> r[i].Passby? && r[i] in ch
    ensures forall x :: x in ch && x.Passby? ==> x in r
  {
    if ch == [] then []
    else
      var rest := Passbys(ch[1..]);
      assert forall x :: x in ch[1..] ==> x in ch;
      assert forall x :: x in ch && x != ch[0] ==> x in ch[1..];
      if ch[0].Passby? then [ch[0]] + rest else rest
  }

  lemma {:induction false} PassbysConcat(a: seq<Node>, b: seq<Node>)
    ensures Passbys(a + b) == Passbys(a) + Passbys(b)
  {
    if a == [] {
      assert a + b == b;
    } else {
      assert (a + b)[0] == a[0];
      assert (a + b)[1..] == a[1..] + b;
      PassbysConcat(a[1..], b);
    }
  }

  lemma PassbysConcat3(a: seq<Node>, b: seq<Node>, c: seq<Node>)
    ensures Passbys(a + b + c) == Passbys(a) + Passbys(b) + Passbys(c)
  {
    PassbysConcat(a + b, c);
    PassbysConcat(a, b);
  }

  /** Putting a Terminal at index `i` leaves the Passby children, and so their order, as they were. */
  lemma InsertTerminalKeepsPassbys(ch: seq<Node>, i: nat, t: Node)
    requires i <= |ch| && t.Terminal? && PassbysAscending(ch)
    ensures PassbysAscending(ch[..i] + [t] + ch[i..])
  {
    var r := ch[..i] + [t] + ch[i..];
    forall a, b | 0 <= a < b < |r| && r[a].Passby? && r[b].Passby? && r[a].segment != [] && r[b].segment != []
      ensures r[a].segment[0] < r[b].segment[0]
    {
      var a' := if a < i then a else a - 1;
      var b' := if b < i then b else b - 1;
      assert r[a] == ch[a'] && r[b] == ch[b'];
    }
  }

  /** Replacing a child by a Passby whose segment starts with the same character keeps both orders. */
  lemma ReplacePassbyKeepsOrders(ch: seq<Node>, i: nat, y: Node)
    requires i < |ch| && ch[i].Passby? && ch[i].segment != []
    requires y.Passby? && y.segment != [] && y.segment[0] == ch[i].segment[0]
    requires TerminalsDescending(ch) && PassbysAscending(ch)
    ensures TerminalsDescending(ch[i := y]) && PassbysAscending(ch[i := y])
  {
  }

  /**
    A new branch for a remainder that shares nothing with the Passby children
    goes where the first characters stay in order: after every Passby the scan
    passed and before the one that is ahead of it.
   */
  lemma InsertBranchKeepsOrders(ch: seq<Node>, remain: string, i: nat, x: Node)
    requires TerminalsDescending(ch) && PassbysAscending(ch)
    requires remain != [] && BranchFrom(ch, remain, 0) == InsertAt(i)
    requires x.Passby? && x.segment == remain
    ensures TerminalsDescending(ch[..i] + [x] + ch[i..]) && PassbysAscending(ch[..i] + [x] + ch[i..])
  {
    BranchInsertPlace(ch, remain, i);
    InsertPassbyKeepsTerminals(ch, i, x);
    InsertPassbyKeepsAscending(ch, i, x);
  }

  /** Where the scan inserts a new branch, the Passbys before it start lower and the child at it starts higher. */
  lemma BranchInsertPlace(ch: seq<Node>, remain: string, i: nat)
    requires PassbysAscending(ch)
    requires remain != [] && BranchFrom(ch, remain, 0) == InsertAt(i)
    ensures i <= |ch|
    ensures forall a :: 0 <= a < i && ch[a].Passby? ==> ch[a].segment[0] < remain[0]
    ensures i < |ch| ==> ch[i].Passby? && ch[i].segment != [] && ch[i].segment[0] > remain[0]
  {
    forall a | 0 <= a < i && ch[a].Passby?
      ensures ch[a].segment[0] < remain[0]
    {
      assert Behind(ch, remain, 0, i);
      FirstCharBelow(ch[a].segment, remain);
    }
    if i < |ch| {
      assert Greater(ch[i].segment, remain);
      assert ch[i].segment[0] > remain[0];
    }
  }

  /** Two strings sharing no first character, the first not greater, have the first starting lower. */
  lemma FirstCharBelow(w: string, remain: string)
    requires w != [] && remain != []
    requires Lcp(w, remain) == 0 && !Greater(w, remain)
    ensures w[0] < remain[0]
  {
  }

  /** A Passby inserted anywhere leaves the Terminals, and so their order, as they were. */
  lemma InsertPassbyKeepsTerminals(ch: seq<Node>, i: nat, x: Node)
    requires i <= |ch| && x.Passby? && TerminalsDescending(ch)
    ensures TerminalsDescending(ch[..i] + [x] + ch[i..])
  {
    var r := ch[..i] + [x] + ch[i..];
    forall a, b | 0 <= a < b < |r| && r[a].Terminal? && r[b].Terminal?
      ensures Less(r[b].verb, r[a].verb)
    {
      var a' := if a < i then a else a - 1;
      var b' := if b < i then b else b - 1;
      assert r[a] == ch[a'] && r[b] == ch[b'];
    }
  }

  /** A Passby inserted between the Passbys that start lower and the child that starts higher keeps the first characters ascending. */
  lemma InsertPassbyKeepsAscending(ch: seq<Node>, i: nat, x: Node)
    requires i <= |ch| && x.Passby? && x.segment != [] && PassbysAscending(ch)
    requires forall a :: 0 <= a < i && ch[a].Passby? ==> ch[a].segment[0] < x.segment[0]
    requires i < |ch| ==> ch[i].Passby? && ch[i].segment != [] && ch[i].segment[0] > x.segment[0]
    ensures PassbysAscending(ch[..i] + [x] + ch[i..])
  {
    var r := ch[..i] + [x] + ch[i..];
    forall a | 0 <= a < |r| && r[a].Passby? ensures r[a].segment != [] {
      if a != i {
        assert r[a] == ch[if a < i then a else a - 1];
      }
    }
    forall a, b | 0 <= a < b < |r| && r[a].Passby? && r[b].Passby? && r[a].segment != [] && r[b].segment != []
      ensures r[a].segment[0] < r[b].segment[0]
    {
      if b < i {
        assert r[a] == ch[a] && r[b] == ch[b];
      } else if b == i {
        assert r[a] == ch[a];
      } else if a < i {
        assert r[a] == ch[a] && r[b] == ch[b - 1];
        assert b - 1 == i || ch[i].segment[0] < ch[b - 1].segment[0];
      } else if a == i {
        assert r[b] == ch[b - 1];
        assert b - 1 == i || ch[i].segment[0] < ch[b - 1].segment[0];
      } else {
        assert r[a] == ch[a - 1] && r[b] == ch[b - 1];
      }
    }
  }

  /** Inserting a Terminal keeps a well-formed node well formed. */
  lemma WithTerminalWellFormed(seg: string, ch: seq<Node>, m: Method, h: HandlerId)
    requires WellFormed(Passby(seg, ch))
    ensures WellFormed(Passby(seg, WithTerminal(ch, m, h)))
  {
    var t := Terminal(m, h);
    WithTerminalKeepsOrder(ch, m, h);
    match TerminalSlotFrom(ch, m, 0)
    case Replace(i) =>
      ReplaceTerminalWellFormed(seg, ch, i, t);
    case InsertBefore(i) =>
      TerminalAtWellFormed(seg, ch, i, t);
    case AtEnd =>
      assert ch[..|ch|] + [t] + ch[|ch|..] == ch + [t];
      TerminalAtWellFormed(seg, ch, |ch|, t);
  }

  lemma TerminalAtWellFormed(seg: string, ch: seq<Node>, i: nat, t: Node)
    requires WellFormed(Passby(seg, ch)) && i <= |ch| && t.Terminal?
    requires TerminalsDescending(ch[..i] + [t] + ch[i..])
    ensures WellFormed(Passby(seg, ch[..i] + [t] + ch[i..]))
  {
    var r := ch[..i] + [t] + ch[i..];
    InsertTerminalKeepsPassbys(ch, i, t);
    forall a | 0 <= a < |r| ensures WellFormed(r[a]) {
      if a < i {
        assert r[a] == ch[a];
      } else if a > i {
        assert r[a] == ch[a - 1];
      }
    }
  }

  lemma ReplaceTerminalWellFormed(seg: string, ch: seq<Node>, i: nat, t: Node)
    requires WellFormed(Passby(seg, ch)) && i < |ch| && ch[i].Terminal? && t.Terminal?
    requires TerminalsDescending(ch[i := t])
    ensures WellFormed(Passby(seg, ch[i := t]))
  {
    var r := ch[i := t];
    forall a | 0 <= a < |r| ensures WellFormed(r[a]) {
      if a != i {
        assert r[a] == ch[a];
      }
    }
  }

  /** Inserting a new branch keeps a well-formed node well formed. */
  lemma InsertBranchWellFormed(seg: string, ch: seq<Node>, remain: string, i: nat, m: Method, h: HandlerId)
    requires WellFormed(Passby(seg, ch))
    requires remain != [] && BranchFrom(ch, remain, 0) == InsertAt(i)
    ensures WellFormed(Passby(seg, ch[..i] + [Passby(remain, [Terminal(m, h)])] + ch[i..]))
  {
    var x := Passby(remain, [Terminal(m, h)]);
    InsertBranchKeepsOrders(ch, remain, i, x);
    var r := ch[..i] + [x] + ch[i..];
    forall a | 0 <= a < |r| ensures WellFormed(r[a]) {
      if a < i {
        assert r[a] == ch[a];
      } else if a > i {
        assert r[a] == ch[a - 1];
      } else {
        assert WellFormed(Terminal(m, h));
      }
    }
  }

  /** Replacing a Passby child by a well-formed Passby with the same first character keeps the node well formed. */
  lemma ReplaceChildWellFormed(seg: string, ch: seq<Node>, i: nat, y: Node)
    requires WellFormed(Passby(seg, ch)) && WellFormed(y)
    requires i < |ch| && ch[i].Passby? && ch[i].segment != []
    requires y.Passby? && y.segment != [] && y.segment[0] == ch[i].segment[0]
    ensures WellFormed(Passby(seg, ch[i := y]))
  {
    ReplacePassbyKeepsOrders(ch, i, y);
    var r := ch[i := y];
    forall a | 0 <= a < |r| ensures WellFormed(r[a]) {
      if a != i {
        assert r[a] == ch[a];
      }
    }
  }

  /** `append` keeps every node well formed: Terminals descending, Passby segments non-empty with ascending first characters. */
  lemma {:induction false} AppendedWellFormed(n: Node, remain: string, m: Method, h: HandlerId)
    requires WellFormed(n)
    ensures WellFormed(Appended(n, remain, m, h))
    decreases |remain|
  {
    match n
    case Terminal(_, _) =>
    case Passby(seg, ch) =>
      if remain == [] {
        WithTerminalWellFormed(seg, ch, m, h);
      } else {
        match BranchFrom(ch, remain, 0)
        case InsertAt(i) =>
          assert Appended(Passby(remain, []), [], m, h) == Passby(remain, [Terminal(m, h)]);
          InsertBranchWellFormed(seg, ch, remain, i, m, h);
        case Descend(i, k) =>
          assert WellFormed(ch[i]);
          AppendedWellFormed(ch[i], remain[k..], m, h);
          ReplaceChildWellFormed(seg, ch, i, Appended(ch[i], remain[k..], m, h));
        case Split(i, k) =>
          var sp := SplitNode(ch[i].segment, ch[i].children, k);
          assert WellFormed(ch[i]);
          assert WellFormed(sp.children[0]);
          AppendedWellFormed(sp, remain[k..], m, h);
          assert ch[i].segment == sp.segment + sp.children[0].segment;
          ReplaceChildWellFormed(seg, ch, i, Appended(sp, remain[k..], m, h));
        case Lost =>
      }
  }

  // ---------------------------------------------------------------------------
  // What `append` and `get` do to the routes
  // ---------------------------------------------------------------------------

  lemma {:induction false} RoutesOfConcat(a: seq<Node>, b: seq<Node>, p: string)
    ensures RoutesOf(a + b, p) == RoutesOf(a, p) + RoutesOf(b, p)
  {
    if a == [] {
      assert a + b == b;
    } else {
      assert (a + b)[0] == a[0];
      assert (a + b)[1..] == a[1..] + b;
      RoutesOfConcat(a[1..], b, p);
    }
  }

  /** The routes of a child list, split around the child at `i`. */
  lemma RoutesOfAround(ch: seq<Node>, i: nat, p: string)
    requires i < |ch|
    ensures RoutesOf(ch, p) == RoutesOf(ch[..i], p) + Routes(ch[i], p) + RoutesOf(ch[i + 1..], p)
  {
    assert ch == ch[..i] + [ch[i]] + ch[i + 1..];
    RoutesOfConcat(ch[..i] + [ch[i]], ch[i + 1..], p);
    RoutesOfConcat(ch[..i], [ch[i]], p);
    assert RoutesOf([ch[i]], p) == Routes(ch[i], p) + RoutesOf([], p);
  }

  /** A child inserted at `i` adds its routes to those of the list. */
  lemma RoutesOfInsert(ch: seq<Node>, i: nat, x: Node, p: string)
    requires i <= |ch|
    ensures RoutesOf(ch[..i] + [x] + ch[i..], p) == RoutesOf(ch, p) + Routes(x, p)
  {
    assert ch == ch[..i] + ch[i..];
    RoutesOfConcat(ch[..i] + [x], ch[i..], p);
    RoutesOfConcat(ch[..i], [x], p);
    RoutesOfConcat(ch[..i], ch[i..], p);
    assert RoutesOf([x], p) == Routes(x, p) + RoutesOf([], p);
  }

  /** A child replaced at `i`: the routes of the others stay. */
  lemma RoutesOfUpdate(ch: seq<Node>, i: nat, x: Node, p: string)
    requires i < |ch|
    ensures RoutesOf(ch[i := x], p) == RoutesOf(ch[..i], p) + Routes(x, p) + RoutesOf(ch[i + 1..], p)
  {
    var r := ch[i := x];
    RoutesOfAround(r, i, p);
    assert r[..i] == ch[..i] && r[i + 1..] == ch[i + 1..];
  }

  /** Splitting a Passby changes the shape of the tree, not its routes. */
  lemma SplitKeepsRoutes(w: string, gc: seq<Node>, k: nat, p: string)
    requires k <= |w|
    ensures Routes(SplitNode(w, gc, k), p) == Routes(Passby(w, gc), p)
  {
    var sp := SplitNode(w, gc, k);
    assert p + w[..k] + w[k..] == p + w;
    assert RoutesOf(sp.children, p + w[..k]) == Routes(sp.children[0], p + w[..k]) + RoutesOf([], p + w[..k]);
  }

  /** The routes under a child are among the routes of the list. */
  lemma {:induction false} RoutesOfMember(ch: seq<Node>, i: nat, p: string)
    requires i < |ch|
    ensures Routes(ch[i], p) <= RoutesOf(ch, p)
  {
    RoutesOfAround(ch, i, p);
  }

  /**
    Going from routes `before` to `after` adds route `t`: nothing else
    appears, only a route with `t`'s path and method can go, and `t` is there
    unless the insertion was dropped, when nothing changes.
   */
  ghost predicate AddsRoute(before: set<Route>, after: set<Route>, t: Route, dropped: bool) {
    && after <= before + {t}
    && (forall r :: r in before && !(r.path == t.path && r.verb == t.verb) ==> r in after)
    && (!dropped ==> t in after)
    && (dropped ==> after == before)
  }

  /** Adding a route below one child adds it to the routes of the whole list. */
  lemma ReplacedRoutes(ch: seq<Node>, i: nat, y: Node, p: string, t: Route, dropped: bool)
    requires i < |ch| && AddsRoute(Routes(ch[i], p), Routes(y, p), t, dropped)
    ensures AddsRoute(RoutesOf(ch, p), RoutesOf(ch[i := y], p), t, dropped)
  {
    RoutesOfUpdate(ch, i, y, p);
    RoutesOfAround(ch, i, p);
  }

  /**
    What `append(remain, m, h)` does to the routes below a Passby `n` reached
    by `prefix`. No route appears but the new one; every old route stays
    unless it has the new route's path and method; the new route is there
    unless the insertion was dropped, and a dropped insertion leaves the routes as they were.
   */
  lemma {:induction false} AppendedRoutes(n: Node, remain: string, m: Method, h: HandlerId, prefix: string)
    requires n.Passby?
    ensures Routes(Appended(n, remain, m, h), prefix) <= Routes(n, prefix) + {Route(prefix + n.segment + remain, m, h)}
    ensures forall r :: r in Routes(n, prefix) && !(r.path == prefix + n.segment + remain && r.verb == m) ==>
      r in Routes(Appended(n, remain, m, h), prefix)
    ensures !Drops(n, remain) ==> Route(prefix + n.segment + remain, m, h) in Routes(Appended(n, remain, m, h), prefix)
    ensures Drops(n, remain) ==> Routes(Appended(n, remain, m, h), prefix) == Routes(n, prefix)
    decreases |remain|
  {
    var seg, ch := n.segment, n.children;
    var p := prefix + seg;
    var t := Route(p + remain, m, h);
    if remain == [] {
      assert p + remain == p;
      WithTerminalRoutes(ch, m, h, p);
    } else {
      match BranchFrom(ch, remain, 0)
      case InsertAt(i) =>
        var x := Passby(remain, [Terminal(m, h)]);
        assert Appended(Passby(remain, []), [], m, h) == x;
        RoutesOfInsert(ch, i, x, p);
        assert Routes(x, p) == {t} by {
          assert RoutesOf(x.children, p + remain) == Routes(Terminal(m, h), p + remain) + RoutesOf([], p + remain);
        }
      case Descend(i, k) =>
        var c := ch[i];
        assert c.segment == remain[..k];
        assert p + c.segment + remain[k..] == p + remain;
        AppendedRoutes(c, remain[k..], m, h, p);
        assert AddsRoute(Routes(c, p), Routes(Appended(c, remain[k..], m, h), p), t, Drops(c, remain[k..]));
        ReplacedRoutes(ch, i, Appended(c, remain[k..], m, h), p, t, Drops(c, remain[k..]));
        assert Routes(Appended(n, remain, m, h), prefix) == RoutesOf(ch[i := Appended(c, remain[k..], m, h)], p);
        assert Drops(n, remain) == Drops(c, remain[k..]);
      case Split(i, k) =>
        var sp := SplitNode(ch[i].segment, ch[i].children, k);
        assert sp.segment == remain[..k];
        assert p + sp.segment + remain[k..] == p + remain;
        SplitKeepsRoutes(ch[i].segment, ch[i].children, k, p);
        AppendedRoutes(sp, remain[k..], m, h, p);
        assert AddsRoute(Routes(ch[i], p), Routes(Appended(sp, remain[k..], m, h), p), t, Drops(sp, remain[k..]));
        ReplacedRoutes(ch, i, Appended(sp, remain[k..], m, h), p, t, Drops(sp, remain[k..]));
        assert Routes(Appended(n, remain, m, h), prefix) == RoutesOf(ch[i := Appended(sp, remain[k..], m, h)], p);
        assert Drops(n, remain) == Drops(sp, remain[k..]);
      case Lost =>
    }
    assert AddsRoute(Routes(n, prefix), Routes(Appended(n, remain, m, h), prefix), t, Drops(n, remain));
  }

  /** Inserting a Terminal below path `p`: the new route is added and only a route of the same method at `p` is replaced. */
  lemma WithTerminalRoutes(ch: seq<Node>, m: Method, h: HandlerId, p: string)
    ensures RoutesOf(WithTerminal(ch, m, h), p) <= RoutesOf(ch, p) + {Route(p, m, h)}
    ensures Route(p, m, h) in RoutesOf(WithTerminal(ch, m, h), p)
    ensures forall r :: r in RoutesOf(ch, p) && !(r.path == p && r.verb == m) ==> r in RoutesOf(WithTerminal(ch, m, h), p)
  {
    var t := Terminal(m, h);
    match TerminalSlotFrom(ch, m, 0)
    case Replace(i) =>
      RoutesOfUpdate(ch, i, t, p);
      RoutesOfAround(ch, i, p);
    case InsertBefore(i) =>
      RoutesOfInsert(ch, i, t, p);
    case AtEnd =>
      assert ch[..|ch|] + [t] + ch[|ch|..] == ch + [t];
      RoutesOfInsert(ch, |ch|, t, p);
  }

  /** `get` is sound: a handler it returns belongs to a route whose path starts the requested path. */
  lemma {:induction false} NodeGetSound(n: Node, path: string, m: Method, prefix: string)
    ensures NodeGet(n, path, m).Some? ==>
      exists q :: StartsWith(path, q) && Route(prefix + q, m, NodeGet(n, path, m).value) in Routes(n, prefix)
    decreases n, 1
  {
    match n
    case Terminal(tm, h) =>
      if tm == m {
        assert StartsWith(path, []) && prefix + [] == prefix;
      }
    case Passby(w, ch) =>
      if StartsWith(path, w) && ChildrenGet(ch, path[|w|..], m).Some? {
        var h := ChildrenGet(ch, path[|w|..], m).value;
        ChildrenGetSound(ch, path[|w|..], m, prefix + w);
        var q :| StartsWith(path[|w|..], q) && Route(prefix + w + q, m, h) in RoutesOf(ch, prefix + w);
        assert path[..|w + q|] == path[..|w|] + path[|w|..][..|q|];
        assert prefix + w + q == prefix + (w + q);
        assert StartsWith(path, w + q);
      }
  }

  lemma {:induction false} ChildrenGetSound(ch: seq<Node>, rest: string, m: Method, prefix: string)
    ensures ChildrenGet(ch, rest, m).Some? ==>
      exists q :: StartsWith(rest, q) && Route(prefix + q, m, ChildrenGet(ch, rest, m).value) in RoutesOf(ch, prefix)
    decreases ch, 0
  {
    if ch != [] && !IsAheadOf(ch[0], rest) {
      NodeGetSound(ch[0], rest, m, prefix);
      ChildrenGetSound(ch[1..], rest, m, prefix);
    }
  }

  // ---------------------------------------------------------------------------
  // The trie
  // ---------------------------------------------------------------------------

  /** `Trie`: the tree of routes, rooted at a Passby with the empty segment. */
  class Trie {
    var root: Node

    /** `Trie::default()`: an empty root. */
    constructor ()
      ensures root == Passby("", [])
    {
      root := Passby("", []);
    }

    /**
      `Trie::insert(p, m, h)`: the root appends `p`. A well-formed tree stays
      well formed; the routes change only by the new one, which is there
      unless the insertion is dropped.
     */
    method Insert(p: string, m: Method, h: HandlerId)
      modifies this
      ensures root == Appended(old(root), p, m, h)
      ensures WellFormed(old(root)) ==> WellFormed(root)
      ensures old(root).Passby? ==> root.Passby? && root.segment == old(root).segment
      ensures old(root).Passby? ==> Routes(root, []) <= old(Routes(root, [])) + {Route(old(root).segment + p, m, h)}
      ensures old(root).Passby? && !Drops(old(root), p) ==> Route(old(root).segment + p, m, h) in Routes(root, [])
      ensures old(root).Passby? ==> forall r :: r in old(Routes(root, [])) && !(r.path == old(root).segment + p && r.verb == m) ==>
        r in Routes(root, [])
      ensures old(root).Passby? && Drops(old(root), p) ==> Routes(root, []) == old(Routes(root, []))
    {
      var before := root;
      root := Append(root, p, m, h);
      if WellFormed(before) {
        AppendedWellFormed(before, p, m, h);
      }
      if before.Passby? {
        AppendedRoutes(before, p, m, h, []);
        assert [] + before.segment + p == before.segment + p;
      }
    }

    /** `Trie::get(p, m)`: what it returns is the handler of a stored route with method `m` whose path starts `p`. */
    function Get(p: string, m: Method): (r: Option<HandlerId>)
      reads this
      ensures r.Some? ==> exists q :: StartsWith(p, q) && Route(q, m, r.value) in Routes(root, [])
    {
      NodeGetSound(root, p, m, []);
      assert forall q: string :: [] + q == q;
      NodeGet(root, p, m)
    }
  }

  // ---------------------------------------------------------------------------
  // Scenarios
  // ---------------------------------------------------------------------------

  /** A new branch is a Passby holding the whole remainder over the one new Terminal. */
  lemma NewBranch(remain: string, m: Method, h: HandlerId)
    ensures Appended(Passby(remain, []), [], m, h) == Passby(remain, [Terminal(m, h)])
  {
    assert TerminalSlotFrom([], m, 0) == AtEnd;
    assert WithTerminal([], m, h) == [Terminal(m, h)];
  }

  /** The shape of a fresh root after one insertion: a Terminal directly below it, or one new branch. */
  lemma FreshAppended(p: string, m: Method, h: HandlerId)
    ensures p == [] ==> Appended(Passby("", []), p, m, h) == Passby("", [Terminal(m, h)])
    ensures p != [] ==> Appended(Passby("", []), p, m, h) == Passby("", [Passby(p, [Terminal(m, h)])])
  {
    NewBranch("", m, h);
    if p != [] {
      assert BranchFrom([], p, 0) == InsertAt(0);
      NewBranch(p, m, h);
      assert [][..0] + [Passby(p, [Terminal(m, h)])] + [][0..] == [Passby(p, [Terminal(m, h)])];
    }
  }

  /** The tree with GET "when" (handler 0) and POST "where" (handler 1). */
  function WhenWhere(): Node {
    Passby("", [Passby("whe", [Passby("n", [Terminal(GET, 0)]), Passby("re", [Terminal(POST, 1)])])])
  }

  /** The when/where tree after inserting GET "what" (handler 2). */
  function WhenWhereWhat(): Node {
    Passby("", [Passby("wh", [Passby("at", [Terminal(GET, 2)]), Passby("e", [Passby("n", [Terminal(GET, 0)]), Passby("re", [Terminal(POST, 1)])])])])
  }

  /** Inserting GET "what" into the when/where tree splits "whe" into "wh" over "e" and puts the new branch "at" before "e". */
  lemma WhatSplitsWhenWhere()
    ensures Appended(WhenWhere(), "what", GET, 2) == WhenWhereWhat()
  {
    var whe := WhenWhere().children[0];
    assert Lcp("whe", "what") == 2;
    assert BranchFrom(WhenWhere().children, "what", 0) == Split(0, 2);
    var sp := SplitNode("whe", whe.children, 2);
    assert sp == Passby("wh", [Passby("e", whe.children)]);
    assert Lcp("e", "at") == 0;
    assert "what"[2..] == "at";
    assert BranchFrom(sp.children, "at", 0) == InsertAt(0);
    NewBranch("at", GET, 2);
    var wh := WhenWhereWhat().children[0];
    assert sp.children[..0] + [Passby("at", [Terminal(GET, 2)])] + sp.children[0..] == wh.children;
    assert Appended(sp, "at", GET, 2) == wh;
    assert WhenWhere().children[0 := wh] == [wh];
  }

  /** After the split, GET "what" finds handler 2. */
  lemma WhatFound()
    ensures NodeGet(WhenWhereWhat(), "what", GET) == Some(2)
  {
    var wh := WhenWhereWhat().children[0];
    assert StartsWith("what", "wh") && "what"[2..] == "at";
    assert !Greater("wh", "what");
    assert StartsWith("at", "at") && "at"[2..] == [];
    assert ChildrenGet(wh.children[0].children, [], GET) == Some(2);
    assert NodeGet(wh.children[0], "at", GET) == Some(2);
    assert ChildrenGet(wh.children, "at", GET) == Some(2);
  }

  /** After the split, GET "when" still finds handler 0. */
  lemma WhenFound()
    ensures NodeGet(WhenWhereWhat(), "when", GET) == Some(0)
  {
    var wh := WhenWhereWhat().children[0];
    var e := wh.children[1];
    assert StartsWith("when", "wh") && "when"[2..] == "en";
    assert !Greater("wh", "when");
    assert !StartsWith("en", "at") && !Greater("at", "en");
    assert StartsWith("en", "e") && "en"[1..] == "n" && !Greater("e", "en");
    assert StartsWith("n", "n") && "n"[1..] == [] && !Greater("n", "n");
    assert NodeGet(e.children[0], "n", GET) == Some(0);
    assert ChildrenGet(e.children, "n", GET) == Some(0);
    assert NodeGet(e, "en", GET) == Some(0);
    assert ChildrenGet(wh.children[1..], "en", GET) == Some(0);
    assert ChildrenGet(wh.children, "en", GET) == Some(0);
  }

  /** After the split, POST "where" still finds handler 1. */
  lemma WhereFound()
    ensures NodeGet(WhenWhereWhat(), "where", POST) == Some(1)
  {
    var wh := WhenWhereWhat().children[0];
    assert StartsWith("where", "wh") && "where"[2..] == "ere";
    assert !Greater("wh", "where");
    assert !StartsWith("ere", "at") && !Greater("at", "ere");
    EreFound();
    assert ChildrenGet(wh.children[1..], "ere", POST) == Some(1);
    assert ChildrenGet(wh.children, "ere", POST) == Some(1);
  }

  /** Below "wh", the branch "e" leads POST "ere" past "n" to the Terminal under "re". */
  lemma EreFound()
    ensures NodeGet(WhenWhereWhat().children[0].children[1], "ere", POST) == Some(1)
  {
    var e := WhenWhereWhat().children[0].children[1];
    assert StartsWith("ere", "e") && "ere"[1..] == "re" && !Greater("e", "ere");
    assert !StartsWith("re", "n") && !Greater("n", "re");
    assert StartsWith("re", "re") && "re"[2..] == [] && !Greater("re", "re");
    assert NodeGet(e.children[0], "re", POST) == None;
    assert NodeGet(e.children[1], "re", POST) == Some(1);
    assert ChildrenGet(e.children[1..], "re", POST) == Some(1);
    assert ChildrenGet(e.children, "re", POST) == Some(1);
  }

  /** "/wowow" is not found in the when/where tree: "whe" is ahead of it, so the scan stops. */
  lemma WowowNotFound()
    ensures NodeGet(WhenWhere(), "/wowow", GET) == None
  {
    assert Greater("whe", "/wowow");
  }

  /** On a fresh trie, any path inserted is found again with its method and handler. */
  lemma FreshInsertFound(p: string, m: Method, h: HandlerId)
    ensures NodeGet(Appended(Passby("", []), p, m, h), p, m) == Some(h)
  {
    FreshAppended(p, m, h);
    var t := Terminal(m, h);
    assert StartsWith(p, "") && p[0..] == p;
    if p == [] {
      assert ChildrenGet([t], p, m) == Some(h);
    } else {
      GreaterIrreflexive(p);
      assert StartsWith(p, p) && p[|p|..] == [];
      assert ChildrenGet([t], [], m) == Some(h);
      assert NodeGet(Passby(p, [t]), p, m) == Some(h);
      assert ChildrenGet([Passby(p, [t])], p, m) == Some(h);
    }
  }

  /** The same on a `Trie` object: `insert("hello/world", GET, h)` then `get` finds `h`. */
  method InsertThenGet(h: HandlerId) returns (r: Option<HandlerId>)
    ensures r == Some(h)
  {
    var t := new Trie();
    t.Insert("hello/world", GET, h);
    r := t.Get("hello/world", GET);
    FreshInsertFound("hello/world", GET, h);
  }

  /** An extension of a route that ends at a Terminal is dropped: "ab" after "a" leaves the tree as it was, and "ab" finds the handler of "a". */
  lemma ExtensionOfTerminalDropped()
    ensures Drops(Passby("", [Passby("a", [Terminal(GET, 0)])]), "ab")
    ensures Appended(Passby("", [Passby("a", [Terminal(GET, 0)])]), "ab", GET, 1) == Passby("", [Passby("a", [Terminal(GET, 0)])])
    ensures NodeGet(Passby("", [Passby("a", [Terminal(GET, 0)])]), "ab", GET) == Some(0)
  {
    assert Lcp("a", "ab") == 1;
    assert "ab"[1..] == "b";
    assert BranchFrom([Terminal(GET, 0)], "b", 0) == Lost;
    assert !Greater("a", "ab");
    assert StartsWith("ab", "a");
  }

  /** The tree after inserting GET "ab" (handler 0) and then POST "a" (handler 1) into a fresh trie. */
  function PrefixTree(): Node {
    Passby("", [Passby("a", [Passby("b", [Terminal(GET, 0)]), Terminal(POST, 1)])])
  }

  /** Inserting POST "a" splits "ab" into "a" over "b", and the new Terminal goes after "b". */
  lemma PrefixInsertions()
    ensures Appended(Appended(Passby("", []), "ab", GET, 0), "a", POST, 1) == PrefixTree()
  {
    var n1 := Appended(Passby("", []), "ab", GET, 0);
    FreshAppended("ab", GET, 0);
    assert Lcp("ab", "a") == 1;
    assert BranchFrom(n1.children, "a", 0) == Split(0, 1);
    var sp := SplitNode("ab", [Terminal(GET, 0)], 1);
    assert sp == Passby("a", [Passby("b", [Terminal(GET, 0)])]);
    assert "a"[1..] == [];
    assert TerminalSlotFrom(sp.children, POST, 0) == AtEnd;
    assert Appended(sp, [], POST, 1) == Passby("a", [Passby("b", [Terminal(GET, 0)]), Terminal(POST, 1)]);
  }

  /** A Terminal for a strict prefix of a route lands after a Passby and is never reached: the route is stored, but `get` misses it. */
  lemma PrefixTerminalUnreachable()
    ensures Route("a", POST, 1) in Routes(Appended(Appended(Passby("", []), "ab", GET, 0), "a", POST, 1), [])
    ensures NodeGet(Appended(Appended(Passby("", []), "ab", GET, 0), "a", POST, 1), "a", POST) == None
  {
    PrefixInsertions();
    PrefixTreeRoute();
    PrefixTreeMiss();
  }

  lemma PrefixTreeRoute()
    ensures Route("a", POST, 1) in Routes(PrefixTree(), [])
  {
    var n2 := PrefixTree();
    var a := n2.children[0];
    assert [] + "" == [] && [] + "a" == "a" && "" + "a" == "a";
    RoutesOfMember(a.children, 1, "a");
    assert Route("a", POST, 1) in Routes(a, []);
    RoutesOfMember(n2.children, 0, []);
  }

  lemma PrefixTreeMiss()
    ensures NodeGet(PrefixTree(), "a", POST) == None
  {
    assert !Greater("a", "a") by { GreaterIrreflexive("a"); }
    assert StartsWith("a", "a") && "a"[1..] == [];
    assert Greater("b", "");
  }

  /** A Terminal matches whatever is left of the path: after inserting "a", "abc" finds the handler of "a". */
  lemma TerminalMatchesLongerPath()
    ensures NodeGet(Appended(Passby("", []), "a", GET, 0), "abc", GET) == Some(0)
  {
    FreshAppended("a", GET, 0);
    assert !Greater("a", "abc");
    assert StartsWith("abc", "a");
  }
}
