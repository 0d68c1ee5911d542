/**
  The response writer of src/server/http/res.rs: a status, a header map and
  a flag that the response went out, over a writer that only accepts
  appended text.
 */
module Responses {
  import opened Wrappers
  import opened Text
  import opened Requests

  /** Rust's `u16`, the type of the status code. */
  type U16 = x: int | 0 <= x < 0x1_0000

  /** The length header every response carries (`HTTP_HEADER_CONTENT_LENGTH`). */
  const ContentLength: string := "Content-Length"

  const AlreadyRespondedMessage: string := "HTTP Already responded"

  /** `format!("{} {} {}\r\n", version, status_code, status)`. */
  function StatusLine(version: string, code: U16, status: string): string {
    version + " " + Decimal(code) + " " + status + "\r\n"
  }

  /** `keys` lists every key of the map once: one of the orders a `HashMap` may iterate in. */
  ghost predicate Ordering(keys: seq<string>, s: set<string>) {
    && (forall i, j :: 0 <= i < j < |keys| ==> keys[i] != keys[j])
    && (forall i :: 0 <= i < |keys| ==> keys[i] in s)
    && (forall k :: k in keys <==> k in s)
  }

  /** The entries of `headers`, in the order `keys` lists them. */
  function Entries(headers: map<string, string>, keys: seq<string>): (fs: seq<(string, string)>)
    requires forall i :: 0 <= i < |keys| ==> keys[i] in headers
    ensures |fs| == |keys|
    ensures forall i :: 0 <= i < |keys| ==> fs[i] == (keys[i], headers[keys[i]])
  {
    if keys == [] then [] else [(keys[0], headers[keys[0]])] + Entries(headers, keys[1..])
  }

  /** The header fields of a response: `Content-Length` first, then the map's entries in iteration order. */
  function HeadFields(content: string, headers: map<string, string>, keys: seq<string>): seq<(string, string)>
    requires forall i :: 0 <= i < |keys| ==> keys[i] in headers
  {
    [(ContentLength, Decimal(|content|))] + Entries(headers, keys)
  }

  /** The header lines of a response, each ended by CRLF. */
  function HeaderBlock(content: string, headers: map<string, string>, keys: seq<string>): string
    requires forall i :: 0 <= i < |keys| ==> keys[i] in headers
  {
    CrlfLines(FieldLines(HeadFields(content, headers, keys)))
  }

  /** The full text `respond` writes: status line, header lines, an empty line and the body. */
  function Response(version: string, code: U16, status: string, headers: map<string, string>, keys: seq<string>, content: string): string
    requires forall i :: 0 <= i < |keys| ==> keys[i] in headers
  {
    StatusLine(version, code, status) + HeaderBlock(content, headers, keys) + "\r\n" + content
  }

  /** The response is its status line, its header block, an empty line and the body, in that order. */
  lemma ResponseParts(version: string, code: U16, status: string, headers: map<string, string>, keys: seq<string>, content: string,
                      statusLine: string, block: string)
    requires forall i :: 0 <= i < |keys| ==> keys[i] in headers
    requires statusLine == StatusLine(version, code, status) && block == HeaderBlock(content, headers, keys)
    ensures Response(version, code, status, headers, keys, content) == statusLine + block + "\r\n" + content
  {
  }

  /** Appending one line to the block appends that line and its CRLF to the text. */
  lemma {:induction false} CrlfLinesSnoc(lines: seq<string>, line: string)
    ensures CrlfLines(lines + [line]) == CrlfLines(lines) + (line + "\r\n")
  {
    if lines == [] {
      assert lines + [line] == [line];
    } else {
      assert (lines + [line])[1..] == lines[1..] + [line];
      CrlfLinesSnoc(lines[1..], line);
    }
  }

  /** One field makes a block of one CRLF-ended line. */
  lemma BlockOfOne(k: string, v: string)
    ensures CrlfLines(FieldLines([(k, v)])) == k + ": " + v + "\r\n"
  {
    var line := k + ": " + v;
    assert FieldLines([(k, v)]) == [line];
    assert [line][1..] == [];
    assert CrlfLines([line]) == line + "\r\n" + CrlfLines([]);
  }

  /** Before any map entry, the block holds the `Content-Length` line alone. */
  lemma HeaderBlockStart(content: string, headers: map<string, string>)
    ensures HeaderBlock(content, headers, []) == ContentLength + ": " + Decimal(|content|) + "\r\n"
  {
    HeadFieldsStart(content, headers);
    BlockOfOne(ContentLength, Decimal(|content|));
  }

  lemma HeadFieldsStart(content: string, headers: map<string, string>)
    ensures HeadFields(content, headers, []) == [(ContentLength, Decimal(|content|))]
  {
  }

  /** The block of the first `i + 1` entries is the block of the first `i` and one more line. */
  lemma HeaderBlockSnoc(content: string, headers: map<string, string>, keys: seq<string>, i: nat)
    requires forall j :: 0 <= j < |keys| ==> keys[j] in headers
    requires i < |keys|
    ensures HeaderBlock(content, headers, keys[..i + 1])
         == HeaderBlock(content, headers, keys[..i]) + (keys[i] + ": " + headers[keys[i]] + "\r\n")
  {
    var before := HeadFields(content, headers, keys[..i]);
    var after := HeadFields(content, headers, keys[..i + 1]);
    assert after == before + [(keys[i], headers[keys[i]])];
    assert FieldLines(after) == FieldLines(before) + [keys[i] + ": " + headers[keys[i]]];
    CrlfLinesSnoc(FieldLines(before), keys[i] + ": " + headers[keys[i]]);
  }

  /** The entries of `headers` whose keys `keys` lists. */
  ghost function Restrict(headers: map<string, string>, keys: seq<string>): map<string, string> {
    map k | k in headers && k in keys :: headers[k]
  }

  /** Storing the map's entries, in any order without repeats, over `base` overrides `base` with those entries. */
  lemma {:induction false} StoreEntries(headers: map<string, string>, keys: seq<string>, base: map<string, string>)
    requires forall i :: 0 <= i < |keys| ==> keys[i] in headers
    requires forall i, j :: 0 <= i < j < |keys| ==> keys[i] != keys[j]
    ensures Store(Entries(headers, keys), base) == base + Restrict(headers, keys)
  {
    if keys == [] {
      assert Restrict(headers, keys) == map[];
    } else {
      var k := keys[0];
      var es := Entries(headers, keys);
      EntriesTail(headers, keys);
      StoreStep(es, base);
      StoreEntries(headers, keys[1..], base[k := headers[k]]);
      RestrictStep(headers, keys);
      OverrideStep(base, k, headers[k], Restrict(headers, keys[1..]));
    }
  }

  lemma EntriesTail(headers: map<string, string>, keys: seq<string>)
    requires forall i :: 0 <= i < |keys| ==> keys[i] in headers
    requires keys != []
    ensures Entries(headers, keys)[0] == (keys[0], headers[keys[0]])
    ensures Entries(headers, keys)[1..] == Entries(headers, keys[1..])
  {
  }

  lemma StoreStep(fs: seq<(string, string)>, base: map<string, string>)
    requires fs != []
    ensures Store(fs, base) == Store(fs[1..], base[fs[0].0 := fs[0].1])
  {
  }

  lemma RestrictStep(headers: map<string, string>, keys: seq<string>)
    requires keys != [] && keys[0] in headers && keys[0] !in keys[1..]
    ensures keys[0] !in Restrict(headers, keys[1..])
    ensures Restrict(headers, keys) == Restrict(headers, keys[1..])[keys[0] := headers[keys[0]]]
  {
    assert forall x :: x in keys <==> x == keys[0] || x in keys[1..];
  }

  lemma OverrideStep(base: map<string, string>, k: string, v: string, r: map<string, string>)
    requires k !in r
    ensures base[k := v] + r == base + r[k := v]
  {
  }

  /**
    Read back in order, the fields a response writes set `Content-Length`
    and every entry of the map; a map entry named `Content-Length` comes
    later and wins.
   */
  lemma StoreHeadFields(content: string, headers: map<string, string>, keys: seq<string>)
    requires Ordering(keys, headers.Keys)
    ensures Store(HeadFields(content, headers, keys), map[]) == map[ContentLength := Decimal(|content|)] + headers
  {
    var fs := HeadFields(content, headers, keys);
    var cl := map[ContentLength := Decimal(|content|)];
    HeadFieldsSplit(content, headers, keys);
    StoreStep(fs, map[]);
    StoreEntries(headers, keys, cl);
    RestrictAll(headers, keys);
  }

  lemma HeadFieldsSplit(content: string, headers: map<string, string>, keys: seq<string>)
    requires forall i :: 0 <= i < |keys| ==> keys[i] in headers
    ensures HeadFields(content, headers, keys) != []
    ensures HeadFields(content, headers, keys)[0] == (ContentLength, Decimal(|content|))
    ensures HeadFields(content, headers, keys)[1..] == Entries(headers, keys)
  {
  }

  lemma RestrictAll(headers: map<string, string>, keys: seq<string>)
    requires forall k :: k in keys <==> k in headers.Keys
    ensures Restrict(headers, keys) == headers
  {
  }

  /** A header map a response can carry: no line feeds, and each entry survives a line split. */
  ghost predicate Writable(headers: map<string, string>) {
    forall k :: k in headers ==> Clean((k, headers[k])) && '\n' !in k && '\n' !in headers[k]
  }

  /** A decimal rendering is a clean header value without line feeds. */
  lemma DecimalClean(n: nat)
    ensures Clean((ContentLength, Decimal(n))) && '\n' !in Decimal(n)
  {
    var d := Decimal(n);
    assert IsDigit(d[0]) && IsDigit(d[|d| - 1]);
    assert ContentLength == "Content-Length";
  }

  /** The status line of a response is the first line read back. */
  lemma StatusLineReadBack(version: string, code: U16, status: string, rest: string)
    requires '\n' !in version && '\n' !in status
    ensures NewLine(StatusLine(version, code, status) + rest) == Ok(Read(version + " " + Decimal(code) + " " + status, rest))
  {
    var first := version + " " + Decimal(code) + " " + status;
    DecimalClean(code);
    assert StatusLine(version, code, status) + rest == first + "\r\n" + rest;
    NewLineOfLine(first, rest);
  }

  /** A response's map and an order of its keys, such that the header lines read back. */
  ghost predicate Sendable(headers: map<string, string>, keys: seq<string>) {
    Ordering(keys, headers.Keys) && Writable(headers)
  }

  /** Fields each of which a header line carries back, with no line feed in either part. */
  ghost predicate WritableFields(fs: seq<(string, string)>) {
    forall i :: 0 <= i < |fs| ==> Clean(fs[i]) && '\n' !in fs[i].0 && '\n' !in fs[i].1
  }

  /** The header fields a response writes are fields the request reader splits back unchanged. */
  lemma HeadFieldsWritable(content: string, headers: map<string, string>, keys: seq<string>)
    requires Sendable(headers, keys)
    ensures WritableFields(HeadFields(content, headers, keys))
  {
    var fs := HeadFields(content, headers, keys);
    forall i | 0 <= i < |fs| ensures Clean(fs[i]) && '\n' !in fs[i].0 && '\n' !in fs[i].1 {
      HeadFieldWritable(content, headers, keys, i);
    }
  }

  /** Each field of a response is clean and free of line feeds. */
  lemma HeadFieldWritable(content: string, headers: map<string, string>, keys: seq<string>, i: nat)
    requires Sendable(headers, keys)
    requires i < |HeadFields(content, headers, keys)|
    ensures Clean(HeadFields(content, headers, keys)[i])
    ensures '\n' !in HeadFields(content, headers, keys)[i].0 && '\n' !in HeadFields(content, headers, keys)[i].1
  {
    HeadFieldsSplit(content, headers, keys);
    if i == 0 {
      DecimalClean(|content|);
    } else {
      assert keys[i - 1] in keys;
      assert HeadFields(content, headers, keys)[1..][i - 1] == (keys[i - 1], headers[keys[i - 1]]);
    }
  }

  /** The line of a field without line feeds is non-empty and has none either. */
  lemma LineWritable(f: (string, string), line: string)
    requires '\n' !in f.0 && '\n' !in f.1 && line == f.0 + ": " + f.1
    ensures line != [] && '\n' !in line
  {
    assert line[|f.0|] == ':';
  }

  /** Writable fields, written as lines, read back in order into the map. */
  lemma ParseFieldLines(fs: seq<(string, string)>, rest: string)
    requires WritableFields(fs)
    ensures ParseHeaders(CrlfLines(FieldLines(fs)) + "\r\n" + rest, map[]) == Ok(Read(Store(fs, map[]), rest))
  {
    var lines := FieldLines(fs);
    forall i | 0 <= i < |lines| ensures lines[i] != [] && '\n' !in lines[i] {
      LineWritable(fs[i], lines[i]);
    }
    FieldsOfFieldLines(fs);
    ParseHeadersOfLines(lines, rest, map[]);
  }

  /** A text made of writable field lines, an empty line and the rest reads back as the stored fields. */
  lemma ReadBackGeneric(fs: seq<(string, string)>, input: string, rest: string, expected: map<string, string>)
    requires WritableFields(fs)
    requires input == CrlfLines(FieldLines(fs)) + "\r\n" + rest
    requires Store(fs, map[]) == expected
    ensures ParseHeaders(input, map[]) == Ok(Read(expected, rest))
  {
    ParseFieldLines(fs, rest);
  }

  /** The header block of a response reads back as `Content-Length` and the response's map, leaving the body. */
  lemma HeaderBlockReadBack(content: string, headers: map<string, string>, keys: seq<string>, input: string, expected: map<string, string>)
    requires Sendable(headers, keys)
    requires input == HeaderBlock(content, headers, keys) + "\r\n" + content
    requires expected == map[ContentLength := Decimal(|content|)] + headers
    ensures ParseHeaders(input, map[]) == Ok(Read(expected, content))
  {
    var fs := HeadFields(content, headers, keys);
    HeadFieldsWritable(content, headers, keys);
    StoreHeadFields(content, headers, keys);
    ReadBackGeneric(fs, input, content, expected);
  }

  /**
    The text `respond` writes reads back, with the request reader's
    functions, as its status line, then a header map holding
    `Content-Length` and every entry of the response's map, then the body.
   */
  lemma ResponseReadBack(version: string, code: U16, status: string, headers: map<string, string>, keys: seq<string>, content: string)
    requires Sendable(headers, keys)
    requires '\n' !in version && '\n' !in status
    ensures NewLine(Response(version, code, status, headers, keys, content))
         == Ok(Read(version + " " + Decimal(code) + " " + status, HeaderBlock(content, headers, keys) + "\r\n" + content))
    ensures ParseHeaders(HeaderBlock(content, headers, keys) + "\r\n" + content, map[])
         == Ok(Read(map[ContentLength := Decimal(|content|)] + headers, content))
  {
    var rest := HeaderBlock(content, headers, keys) + "\r\n" + content;
    Regroup(StatusLine(version, code, status), HeaderBlock(content, headers, keys), "\r\n", content);
    StatusLineReadBack(version, code, status, rest);
    HeaderBlockReadBack(content, headers, keys, rest, map[ContentLength := Decimal(|content|)] + headers);
  }

  /** A text written in four pieces is its first piece followed by the other three. */
  lemma Regroup(a: string, b: string, c: string, d: string)
    ensures a + b + c + d == a + (b + c + d)
  {
  }

  /** The keys of a set in some order, as a `HashMap` iterates them; which order is left open. */
  method KeysInSomeOrder(s: set<string>) returns (keys: seq<string>)
    ensures Ordering(keys, s)
  {
    keys := [];
    var left := s;
    while left != {}
      invariant left <= s
      invariant forall i, j :: 0 <= i < j < |keys| ==> keys[i] != keys[j]
      invariant forall k :: k in keys <==> k in s && k !in left
      decreases |left|
    {
      var k :| k in left;
      keys := keys + [k];
      left := left - {k};
    }
  }

  /**
    The header lines `respond` writes one after another: `Content-Length`,
    then one line per key of `order`.
   */
  method WriteHeaderBlock(content: string, headers: map<string, string>, order: seq<string>) returns (block: string)
    requires forall j :: 0 <= j < |order| ==> order[j] in headers
    ensures block == HeaderBlock(content, headers, order)
  {
    HeaderBlockStart(content, headers);
    block := ContentLength + ": " + Decimal(|content|) + "\r\n";
    var i := 0;
    assert order[..0] == [];
    while i < |order|
      invariant 0 <= i <= |order|
      invariant block == HeaderBlock(content, headers, order[..i])
    {
      var k := order[i];
      HeaderBlockSnoc(content, headers, order, i);
      block := block + (k + ": " + headers[k] + "\r\n");
      i := i + 1;
    }
    assert order[..i] == order;
  }

  /** The writes of `respond` one after another: status line, header lines, an empty line, the body. */
  method WriteResponse(version: string, code: U16, status: string, headers: map<string, string>, order: seq<string>, content: string)
    returns (text: string)
    requires forall j :: 0 <= j < |order| ==> order[j] in headers
    ensures text == Response(version, code, status, headers, order, content)
  {
    var statusLine := StatusLine(version, code, status);
    var block := WriteHeaderBlock(content, headers, order);
    ResponseParts(version, code, status, headers, order, content, statusLine, block);
    text := statusLine;
    text := text + block;
    text := text + "\r\n";
    text := text + content;
  }

  /** An iteration order is empty exactly when the map has no keys. */
  lemma OrderingEmpty(keys: seq<string>, s: set<string>)
    requires Ordering(keys, s)
    ensures keys == [] <==> s == {}
  {
    if keys != [] {
      assert keys[0] in s;
    }
    if s != {} {
      var k :| k in s;
      assert k in keys;
    }
  }

  /** The text of a response with no headers: the status line, the length line, an empty line and the body. */
  function PlainText(version: string, code: U16, status: string, content: string): string {
    StatusLine(version, code, status) + (ContentLength + ": " + Decimal(|content|) + "\r\n") + "\r\n" + content
  }

  /** A response with no headers writes exactly its plain text. */
  lemma PlainResponse(version: string, code: U16, status: string, keys: seq<string>, content: string)
    requires Ordering(keys, {})
    ensures Response(version, code, status, map[], keys, content) == PlainText(version, code, status, content)
  {
    OrderingEmpty(keys, {});
    HeaderBlockStart(content, map[]);
  }

  /** A response under construction (`Res`), writing into `out`. */
  class Res {
    var version: string
    var statusCode: U16
    var status: string
    var headers: map<string, string>
    var out: string
    var responded: bool

    /** `Res::new(w)`: version "HTTP/1.x", 200 "OK", no headers and nothing responded; `written` is what the writer already holds. */
    constructor(written: string)
      ensures version == "HTTP/1.x" && statusCode == 200 && status == "OK"
      ensures headers == map[] && out == written && !responded
    {
      version := "HTTP/1.x";
      statusCode := 200;
      status := "OK";
      headers := map[];
      out := written;
      responded := false;
    }

    /** `Res::set_header`: the key now maps to `value`; the previous value, if any, is returned. */
    method SetHeader(key: string, value: string) returns (previous: Option<string>)
      modifies this
      ensures headers == old(headers)[key := value]
      ensures previous == if key in old(headers) then Some(old(headers)[key]) else None
      ensures version == old(version) && statusCode == old(statusCode) && status == old(status)
      ensures out == old(out) && responded == old(responded)
    {
      previous := if key in headers then Some(headers[key]) else None;
      headers := headers[key := value];
    }

    /** `Res::set_status`: both the code and the text are replaced. */
    method SetStatus(code: U16, text: string)
      modifies this
      ensures statusCode == code && status == text
      ensures version == old(version) && headers == old(headers)
      ensures out == old(out) && responded == old(responded)
    {
      statusCode := code;
      status := text;
    }

    /**
      `Res::respond`: a second call fails and writes nothing; the first writes
      the status line, `Content-Length`, every header in the map's iteration
      order `keys`, an empty line and the body, and then marks the response
      as sent.
     */
    method Respond(content: string) returns (r: Result<()>, ghost keys: seq<string>)
      modifies this
      ensures old(responded) ==> r == Err(IoError(Other, AlreadyRespondedMessage)) && out == old(out)
      ensures !old(responded) ==> r == Ok(()) && Ordering(keys, headers.Keys)
      ensures !old(responded) ==> out == old(out) + Response(version, statusCode, status, headers, keys, content)
      ensures responded
      ensures version == old(version) && statusCode == old(statusCode) && status == old(status) && headers == old(headers)
    {
      keys := [];
      if responded {
        return Err(IoError(Other, AlreadyRespondedMessage)), keys;
      }
      var order := KeysInSomeOrder(headers.Keys);
      keys := order;
      var text := WriteResponse(version, statusCode, status, headers, order, content);
      Emit(text);
      r := Ok(());
    }

    /** Writing the response text to the stream and marking the response as sent. */
    method Emit(text: string)
      modifies this
      ensures out == old(out) + text && responded
      ensures version == old(version) && statusCode == old(statusCode) && status == old(status) && headers == old(headers)
    {
      out := out + text;
      responded := true;
    }

    /** `Res::status`. */
    function Status(): string
      reads this
    {
      status
    }

    /** `Res::responded`. */
    function Responded(): bool
      reads this
    {
      responded
    }
  }
}
