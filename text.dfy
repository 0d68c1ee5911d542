/**
  String helpers shared by the router and the HTTP reader and writer.
  Strings are sequences of characters; the core handles ASCII text, where one
  character is one byte, so Rust's byte lengths and character counts agree.
 */
module Text {
  import opened Wrappers

  /** `s.starts_with(p)`. */
  predicate StartsWith(s: string, p: string) {
    |p| <= |s| && s[..|p|] == p
  }

  /** `a > b` on Rust strings: lexicographic by character (UTF-8 byte order is code point order). */
  predicate Greater(a: string, b: string)
    decreases |a|
  {
    if a == [] then false
    else if b == [] then true
    else if a[0] != b[0] then a[0] > b[0]
    else Greater(a[1..], b[1..])
  }

  /** `a` and `b` agree on their first `k` characters and `a` is larger at position `k`. */
  ghost predicate GreaterAt(a: string, b: string, k: nat) {
    && k < |a| && k <= |b|
    && a[..k] == b[..k]
    && (k == |b| || a[k] > b[k])
  }

  /** Greater is the lexicographic order: after a common prefix, `a` goes on where `b` stops or has a larger character. */
  lemma {:induction false} GreaterIsLexicographic(a: string, b: string)
    ensures Greater(a, b) <==> exists k: nat :: GreaterAt(a, b, k)
    decreases |a|
  {
    if a == [] {
    } else if b == [] {
      assert GreaterAt(a, b, 0);
    } else if a[0] != b[0] {
      if Greater(a, b) {
        assert GreaterAt(a, b, 0);
      }
      forall k: nat | GreaterAt(a, b, k) ensures Greater(a, b) {
        if k > 0 {
          assert a[..k][0] == b[..k][0];
        }
      }
    } else {
      GreaterIsLexicographic(a[1..], b[1..]);
      if Greater(a, b) {
        var k: nat :| GreaterAt(a[1..], b[1..], k);
        assert a[..k + 1] == [a[0]] + a[1..][..k];
        assert b[..k + 1] == [b[0]] + b[1..][..k];
        assert GreaterAt(a, b, k + 1);
      }
      forall k: nat | GreaterAt(a, b, k) ensures Greater(a, b) {
        assert k > 0;
        assert a[1..][..k - 1] == a[..k][1..];
        assert b[1..][..k - 1] == b[..k][1..];
        assert GreaterAt(a[1..], b[1..], k - 1);
      }
    }
  }

  /** No string is greater than itself. */
  lemma {:induction false} GreaterIrreflexive(a: string)
    ensures !Greater(a, a)
    decreases |a|
  {
    if a != [] {
      GreaterIrreflexive(a[1..]);
    }
  }

  /**
    The length of the longest common prefix of `a` and `b`: they agree on that
    many characters and then one of them ends or they differ.
   */
  function Lcp(a: string, b: string): (r: nat)
    ensures r <= |a| && r <= |b|
    ensures a[..r] == b[..r]
    ensures r == |a| || r == |b| || a[r] != b[r]
    decreases |a|
  {
    if a == [] || b == [] || a[0] != b[0] then 0
    else
      var k := Lcp(a[1..], b[1..]);
      assert a[..k + 1] == [a[0]] + a[1..][..k];
      assert b[..k + 1] == [b[0]] + b[1..][..k];
      1 + k
  }

  /** Lcp's contract determines it: a common prefix after which one string ends or the two differ is the longest one. */
  lemma LcpUnique(a: string, b: string, k: nat)
    requires k <= |a| && k <= |b| && a[..k] == b[..k]
    requires k == |a| || k == |b| || a[k] != b[k]
    ensures k == Lcp(a, b)
  {
  }

  /** The characters Rust's `char::is_whitespace` accepts (the Unicode White_Space property). */
  predicate IsWhitespace(c: char) {
    || ('\t' <= c <= '\r') || c == ' ' || c == '\U{85}' || c == '\U{A0}' || c == '\U{1680}'
    || ('\U{2000}' <= c <= '\U{200A}') || c == '\U{2028}' || c == '\U{2029}'
    || c == '\U{202F}' || c == '\U{205F}' || c == '\U{3000}'
  }

  predicate AllWhitespace(s: string) {
    forall i :: 0 <= i < |s| ==> IsWhitespace(s[i])
  }

  predicate NoWhitespace(s: string) {
    forall i :: 0 <= i < |s| ==> !IsWhitespace(s[i])
  }

  /** `s.trim_start()`: the suffix left after dropping the leading whitespace. */
  function TrimStart(s: string): (r: string)
    ensures |r| <= |s| && r == s[|s| - |r|..]
    ensures AllWhitespace(s[..|s| - |r|])
    ensures r == [] || !IsWhitespace(r[0])
    decreases |s|
  {
    if s != [] && IsWhitespace(s[0]) then
      var r := TrimStart(s[1..]);
      TrimStartStep(s, r);
      r
    else s
  }

  /** Dropping one more leading whitespace character keeps the suffix and the whitespace before it. */
  lemma TrimStartStep(s: string, r: string)
    requires s != [] && IsWhitespace(s[0])
    requires |r| <= |s| - 1 && r == s[1..][|s| - 1 - |r|..] && AllWhitespace(s[1..][..|s| - 1 - |r|])
    ensures |r| <= |s| && r == s[|s| - |r|..] && AllWhitespace(s[..|s| - |r|])
  {
    var n := |s| - |r|;
    assert s[1..][|s| - 1 - |r|..] == s[n..];
    forall j | 0 <= j < n ensures IsWhitespace(s[..n][j]) {
      if j > 0 {
        assert s[..n][j] == s[1..][..|s| - 1 - |r|][j - 1];
      }
    }
  }

  /** `s.trim_end()`: the prefix left after dropping the trailing whitespace. */
  function TrimEnd(s: string): (r: string)
    ensures |r| <= |s| && r == s[..|r|]
    ensures AllWhitespace(s[|r|..])
    ensures r == [] || !IsWhitespace(r[|r| - 1])
    decreases |s|
  {
    if s != [] && IsWhitespace(s[|s| - 1]) then
      var r := TrimEnd(s[..|s| - 1]);
      TrimEndStep(s, r);
      r
    else s
  }

  /** Dropping one more trailing whitespace character keeps the prefix and the whitespace after it. */
  lemma TrimEndStep(s: string, r: string)
    requires s != [] && IsWhitespace(s[|s| - 1])
    requires |r| <= |s| - 1 && r == s[..|s| - 1][..|r|] && AllWhitespace(s[..|s| - 1][|r|..])
    ensures |r| <= |s| && r == s[..|r|] && AllWhitespace(s[|r|..])
  {
    assert s[..|s| - 1][..|r|] == s[..|r|];
    forall j | 0 <= j < |s| - |r| ensures IsWhitespace(s[|r|..][j]) {
      if j < |s| - 1 - |r| {
        assert s[|r|..][j] == s[..|s| - 1][|r|..][j];
      }
    }
  }

  /** `s.trim()`: `s` without its leading and trailing whitespace; what is left starts and ends with a visible character. */
  function Trim(s: string): (r: string)
    ensures r == [] || (!IsWhitespace(r[0]) && !IsWhitespace(r[|r| - 1]))
  {
    var t := TrimStart(s);
    var r := TrimEnd(t);
    TrimEnds(t, r);
    r
  }

  /** A prefix of a text that starts with a visible character, itself ending in one, starts and ends with one. */
  lemma TrimEnds(t: string, r: string)
    requires t == [] || !IsWhitespace(t[0])
    requires |r| <= |t| && r == t[..|r|]
    requires r == [] || !IsWhitespace(r[|r| - 1])
    ensures r == [] || (!IsWhitespace(r[0]) && !IsWhitespace(r[|r| - 1]))
  {
    if r != [] {
      assert r[0] == t[0];
    }
  }

  /** `r` is the slice of `s` from `i`, with only whitespace before and after it. */
  ghost predicate MiddleSlice(s: string, i: int, r: string) {
    && 0 <= i && i + |r| <= |s| && r == s[i..i + |r|] && AllWhitespace(s[..i]) && AllWhitespace(s[i + |r|..])
  }

  /** Whitespace dropped from the front of `s` and then from the back of the rest leaves a middle slice. */
  lemma TrimBounds(s: string, t: string, r: string)
    requires |t| <= |s| && t == s[|s| - |t|..] && AllWhitespace(s[..|s| - |t|])
    requires |r| <= |t| && r == t[..|r|] && AllWhitespace(t[|r|..])
    ensures MiddleSlice(s, |s| - |t|, r)
  {
    var i := |s| - |t|;
    assert s[i..i + |r|] == r;
    assert s[i + |r|..] == t[|r|..];
  }

  /** The trimmed text is the slice of `s` after the leading whitespace, with only whitespace after it. */
  lemma TrimSlice(s: string)
    ensures MiddleSlice(s, |s| - |TrimStart(s)|, Trim(s))
  {
    var t := TrimStart(s);
    var r := TrimEnd(t);
    assert Trim(s) == r;
    TrimBounds(s, t, r);
  }

  /** Trimming only removes characters. */
  lemma TrimChars(s: string)
    ensures forall c :: c in Trim(s) ==> c in s
  {
    var t := TrimStart(s);
    var r := TrimEnd(t);
    assert Trim(s) == r;
    SuffixChars(s, t);
    PrefixChars(t, r);
  }

  /** A suffix holds only characters of the whole. */
  lemma SuffixChars(s: string, t: string)
    requires |t| <= |s| && t == s[|s| - |t|..]
    ensures forall c :: c in t ==> c in s
  {
    forall c | c in t ensures c in s {
      var k :| 0 <= k < |t| && t[k] == c;
      assert s[|s| - |t| + k] == c;
    }
  }

  /** A prefix holds only characters of the whole. */
  lemma PrefixChars(t: string, r: string)
    requires |r| <= |t| && r == t[..|r|]
    ensures forall c :: c in r ==> c in t
  {
    forall c | c in r ensures c in t {
      var k :| 0 <= k < |r| && r[k] == c;
      assert t[k] == c;
    }
  }

  /** The longest prefix of `s` without whitespace. */
  function Word(s: string): (r: string)
    ensures |r| <= |s| && r == s[..|r|] && NoWhitespace(r)
    ensures |r| == |s| || IsWhitespace(s[|r|])
    decreases |s|
  {
    if s == [] || IsWhitespace(s[0]) then []
    else
      var w := Word(s[1..]);
      assert [s[0]] + w == s[..|w| + 1];
      [s[0]] + w
  }

  /** `s.split_whitespace()`: the maximal runs of non-whitespace characters, in order. */
  function Tokens(s: string): (r: seq<string>)
    ensures forall i :: 0 <= i < |r| ==> r[i] != [] && NoWhitespace(r[i])
    decreases |s|
  {
    var t := TrimStart(s);
    if t == [] then []
    else
      var w := Word(t);
      WordOfVisible(t);
      var ts := Tokens(t[|w|..]);
      WordsCons(w, ts);
      [w] + ts
  }

  /** A text starting with a visible character starts with a non-empty word. */
  lemma WordOfVisible(t: string)
    requires t != [] && !IsWhitespace(t[0])
    ensures Word(t) != []
  {
  }

  /** Putting a non-empty word in front of non-empty words gives non-empty words. */
  lemma WordsCons(w: string, ts: seq<string>)
    requires w != [] && NoWhitespace(w)
    requires forall i :: 0 <= i < |ts| ==> ts[i] != [] && NoWhitespace(ts[i])
    ensures forall i :: 0 <= i < |[w] + ts| ==> ([w] + ts)[i] != [] && NoWhitespace(([w] + ts)[i])
  {
  }

  function Concat(ws: seq<string>): string {
    if ws == [] then [] else ws[0] + Concat(ws[1..])
  }

  /** The characters of `s` that are not whitespace. */
  function Visible(s: string): string {
    if s == [] then []
    else if IsWhitespace(s[0]) then Visible(s[1..])
    else [s[0]] + Visible(s[1..])
  }

  lemma {:induction false} VisibleAppend(a: string, b: string)
    ensures Visible(a + b) == Visible(a) + Visible(b)
  {
    if a != [] {
      var ab := a + b;
      assert ab[0] == a[0];
      assert ab[1..] == a[1..] + b;
      VisibleAppend(a[1..], b);
      if IsWhitespace(a[0]) {
        assert Visible(ab) == Visible(ab[1..]);
      } else {
        assert Visible(ab) == [a[0]] + Visible(ab[1..]);
      }
    } else {
      assert a + b == b;
    }
  }

  lemma VisibleOfWhitespace(s: string)
    requires AllWhitespace(s)
    ensures Visible(s) == []
  {
    if s != [] {
      VisibleOfWhitespace(s[1..]);
    }
  }

  lemma VisibleOfWord(s: string)
    requires NoWhitespace(s)
    ensures Visible(s) == s
  {
    if s != [] {
      VisibleOfWord(s[1..]);
    }
  }

  /** Splitting on whitespace loses exactly the whitespace: the tokens put back together are the visible characters. */
  lemma {:induction false} VisibleTrimStart(s: string)
    ensures Visible(TrimStart(s)) == Visible(s)
    decreases |s|
  {
    if s != [] && IsWhitespace(s[0]) {
      VisibleTrimStart(s[1..]);
    }
  }

  lemma {:induction false} TokensCoverVisible(s: string)
    ensures Concat(Tokens(s)) == Visible(s)
    decreases |s|
  {
    var t := TrimStart(s);
    VisibleTrimStart(s);
    if t != [] {
      var w := Word(t);
      var rest := t[|w|..];
      TokensUnfold(s, t, w, rest);
      ConcatCons(w, Tokens(rest));
      TokensCoverVisible(rest);
      VisibleSplit(t, w, rest);
    }
  }

  /** One step of `Tokens`: the first word of the trimmed text, then the tokens of what follows it. */
  lemma TokensUnfold(s: string, t: string, w: string, rest: string)
    requires t == TrimStart(s) && t != [] && w == Word(t) && rest == t[|w|..]
    ensures Tokens(s) == [w] + Tokens(rest)
  {
  }

  lemma ConcatCons(w: string, ts: seq<string>)
    ensures Concat([w] + ts) == w + Concat(ts)
  {
    assert ([w] + ts)[1..] == ts;
  }

  /** The visible characters of a text are those of its first word, then those of what follows it. */
  lemma VisibleSplit(t: string, w: string, rest: string)
    requires w == Word(t) && rest == t[|w|..]
    ensures Visible(t) == w + Visible(rest)
  {
    assert t == w + rest;
    VisibleAppend(w, rest);
    VisibleOfWord(w);
  }

  /** The `i`-th token of `s`, or the empty string when there are fewer tokens. */
  function TokenOr(ts: seq<string>, i: nat): string {
    if i < |ts| then ts[i] else ""
  }

  /** The first position of `c` in `s`. */
  function IndexOf(s: string, c: char): (r: Option<nat>)
    ensures r.Some? ==> r.value < |s| && s[r.value] == c && c !in s[..r.value]
    ensures r.None? <==> c !in s
    decreases |s|
  {
    if s == [] then None
    else if s[0] == c then Some(0)
    else match IndexOf(s[1..], c)
      case None => None
      case Some(i) =>
        assert s[..i + 1] == [s[0]] + s[1..][..i];
        Some(i + 1)
  }

  /** The first occurrence is the one IndexOf finds. */
  lemma {:induction false} IndexOfUnique(s: string, c: char, i: nat)
    requires i < |s| && s[i] == c && c !in s[..i]
    ensures IndexOf(s, c) == Some(i)
  {
    if i > 0 {
      assert s[0] in s[..i];
      assert s[1..][..i - 1] == s[..i][1..];
      IndexOfUnique(s[1..], c, i - 1);
    }
  }

  predicate IsDigit(c: char) {
    '0' <= c <= '9'
  }

  function DigitChar(d: nat): (c: char)
    requires d < 10
    ensures IsDigit(c) && (c as int) - ('0' as int) == d
  {
    (('0' as int) + d) as char
  }

  /** The decimal rendering of `n`, as `format!("{}", n)` writes a `usize`. */
  function Decimal(n: nat): (r: string)
    ensures r != [] && forall i :: 0 <= i < |r| ==> IsDigit(r[i])
    ensures n > 0 ==> r[0] != '0'
  {
    if n < 10 then [DigitChar(n)] else Decimal(n / 10) + [DigitChar(n % 10)]
  }

  function DigitValue(c: char): nat
    requires IsDigit(c)
  {
    (c as int) - ('0' as int)
  }

  /** The number that a string of decimal digits denotes. */
  function DecimalValue(s: string): nat
    requires forall i :: 0 <= i < |s| ==> IsDigit(s[i])
  {
    if s == [] then 0
    else 10 * DecimalValue(s[..|s| - 1]) + DigitValue(s[|s| - 1])
  }

  /** Reading the decimal rendering back gives the number. */
  lemma {:induction false} DecimalRoundTrip(n: nat)
    ensures DecimalValue(Decimal(n)) == n
  {
    if n >= 10 {
      DecimalRoundTrip(n / 10);
      var s := Decimal(n);
      assert s[..|s| - 1] == Decimal(n / 10);
    }
  }

  /** Text without whitespace at either end is its own trim, also after a leading space. */
  lemma TrimTrimmed(s: string)
    requires s == [] || (!IsWhitespace(s[0]) && !IsWhitespace(s[|s| - 1]))
    ensures Trim(s) == s && Trim(" " + s) == s
  {
    TrimStartKeeps(s);
    TrimStartSpace(s);
    TrimEndKeeps(s);
  }

  lemma TrimStartKeeps(s: string)
    requires s == [] || !IsWhitespace(s[0])
    ensures TrimStart(s) == s
  {
  }

  lemma TrimEndKeeps(s: string)
    requires s == [] || !IsWhitespace(s[|s| - 1])
    ensures TrimEnd(s) == s
  {
  }

  /** A leading space is trimmed away. */
  lemma TrimStartSpace(s: string)
    ensures TrimStart(" " + s) == TrimStart(s)
  {
    assert (" " + s)[0] == ' ';
    assert (" " + s)[1..] == s;
  }

  /** The first word of `w + s` is `w` when `w` has no whitespace and `s` starts with whitespace or is empty. */
  lemma {:induction false} WordOf(w: string, s: string)
    requires NoWhitespace(w) && (s == [] || IsWhitespace(s[0]))
    ensures Word(w + s) == w
  {
    if w == [] {
      assert w + s == s;
    } else {
      assert (w + s)[0] == w[0];
      assert (w + s)[1..] == w[1..] + s;
      WordOf(w[1..], s);
    }
  }

  /** A word in front of whitespace is the first token. */
  lemma TokensCons(w: string, s: string)
    requires w != [] && NoWhitespace(w) && (s == [] || IsWhitespace(s[0]))
    ensures Tokens(w + s) == [w] + Tokens(s)
  {
    assert (w + s)[0] == w[0];
    WordOf(w, s);
    assert (w + s)[|w|..] == s;
  }

  /** A leading space does not change the tokens. */
  lemma TokensSpace(s: string)
    ensures Tokens(" " + s) == Tokens(s)
  {
    assert (" " + s)[1..] == s;
  }

  /** A word followed by a single space is the first token of what follows. */
  lemma TokensOfWordSpace(w: string, s: string, ts: seq<string>)
    requires w != [] && NoWhitespace(w) && Tokens(s) == ts
    ensures Tokens(w + " " + s) == [w] + ts
  {
    assert w + " " + s == w + (" " + s);
    TokensCons(w, " " + s);
    TokensSpace(s);
  }

  /** A single word is its only token. */
  lemma TokensOfWord(w: string)
    requires w != [] && NoWhitespace(w)
    ensures Tokens(w) == [w]
  {
    assert w + "" == w;
    TokensCons(w, "");
  }

  /** Two whitespace-free words separated by a single space split into those words. */
  lemma TokensOfTwo(b: string, c: string)
    requires b != [] && c != [] && NoWhitespace(b) && NoWhitespace(c)
    ensures Tokens(b + " " + c) == [b, c]
  {
    TokensOfWord(c);
    TokensOfWordSpace(b, c, [c]);
  }

  /** Three whitespace-free words separated by single spaces split into those words. */
  lemma TokensOfThree(a: string, b: string, c: string)
    requires a != [] && b != [] && c != []
    requires NoWhitespace(a) && NoWhitespace(b) && NoWhitespace(c)
    ensures Tokens(a + " " + (b + " " + c)) == [a, b, c]
  {
    TokensOfTwo(b, c);
    TokensOfWordSpace(a, b + " " + c, [b, c]);
  }
}
