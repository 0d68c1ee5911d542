/**
  The request-head reader of src/server/http/req.rs. The stream is the text
  still to be read; `read_line` takes it up to and including the next line
  feed. A request line and the header lines are read with `read_new_line`,
  which joins pieces until the text ends in CRLF and strips that CRLF.
 */
module Requests {
  import opened Wrappers
  import opened Text
  import opened Methods

  /** `MAX_HTTP_HEADER_LINE_LENGTH`. */
  const MaxHeaderLineLength: nat := 4096

  const ShortLineMessage: string := "each line should at least contain \"\\r\\n\" at the end"
  const LongLineMessage: string := "exceeding max header line limit"
  const BadMethodMessage: string := "tcp stream doesn't have valid http method"
  const BadFirstLineMessage: string := "tcp stream doesn't have valid http first line"

  /** A parsed request: method, path, version, headers, and the stream left for the body. */
  datatype Req = Req(verb: Method, path: string, version: string, headers: map<string, string>, body: string)

  /** A piece of text read from the stream and what is left of the stream. */
  datatype Read<T> = Read(value: T, rest: string)

  predicate EndsWithCrlf(s: string) {
    |s| >= 2 && s[|s| - 2..] == "\r\n"
  }

  /** No CR is followed by an LF in `s`. */
  predicate NoCrlf(s: string) {
    forall i :: 0 <= i < |s| - 1 ==> !(s[i] == '\r' && s[i + 1] == '\n')
  }

  /** `read_line`: the text up to and including the first line feed, or all of it when there is none. */
  function ReadLine(s: string): (r: Read<string>)
    ensures r.value + r.rest == s
    ensures s != [] ==> r.value != []
    ensures r.value != [] ==> '\n' !in r.value[..|r.value| - 1]
    ensures r.rest != [] ==> r.value[|r.value| - 1] == '\n'
    ensures '\n' !in s ==> r.rest == []
  {
    match IndexOf(s, '\n')
    case Some(i) =>
      assert s[..i + 1][..i] == s[..i];
      Read(s[..i + 1], s[i + 1..])
    case None => Read(s, [])
  }

  /**
    The loop of `read_new_line` once `res` holds at least two characters:
    while `res` does not end in CRLF, fail when it is longer than the limit,
    else read one more piece. At the end of the stream the source reads
    nothing and loops for ever; that case is the `Endless` error here.
   */
  function Accumulate(res: string, rest: string): (r: Result<Read<string>>)
    requires |res| >= 2
    ensures r.Ok? ==> res + rest == r.value.value + "\r\n" + r.value.rest
    decreases |rest|
  {
    if res[|res| - 2..] == "\r\n" then
      assert res == res[..|res| - 2] + "\r\n";
      Ok(Read(res[..|res| - 2], rest))
    else if |res| > MaxHeaderLineLength then Err(IoError(InvalidData, LongLineMessage))
    else if rest == [] then Err(IoError(Endless, ""))
    else
      var more := ReadLine(rest);
      assert res + rest == (res + more.value) + more.rest;
      Accumulate(res + more.value, more.rest)
  }

  /** `read_new_line` as a function of the stream. */
  function NewLine(input: string): (r: Result<Read<string>>)
    ensures r.Ok? ==> input == r.value.value + "\r\n" + r.value.rest
  {
    var first := ReadLine(input);
    if |first.value| < 2 then Err(IoError(InvalidData, ShortLineMessage))
    else Accumulate(first.value, first.rest)
  }

  /** `read_new_line`: read a piece, then keep reading while the text does not end in CRLF; pop the CRLF. */
  method ReadNewLine(input: string) returns (r: Result<Read<string>>)
    ensures r == NewLine(input)
  {
    var first := ReadLine(input);
    var res, rest := first.value, first.rest;
    if |res| < 2 {
      return Err(IoError(InvalidData, ShortLineMessage));
    }
    while res[|res| - 2..] != "\r\n"
      invariant |res| >= 2
      invariant Accumulate(res, rest) == NewLine(input)
      decreases |rest|
    {
      if |res| > MaxHeaderLineLength {
        return Err(IoError(InvalidData, LongLineMessage));
      }
      if rest == [] {
        return Err(IoError(Endless, ""));
      }
      var additional := ReadLine(rest);
      res, rest := res + additional.value, additional.rest;
    }
    ghost var full := res;
    res := res[..|res| - 1];
    res := res[..|res| - 1];
    assert res == full[..|full| - 2];
    return Ok(Read(res, rest));
  }

  /** A CRLF in `s` can only be its last two characters. */
  ghost predicate CrlfOnlyAtEnd(s: string) {
    forall i :: 0 <= i < |s| - 2 ==> !(s[i] == '\r' && s[i + 1] == '\n')
  }

  lemma {:induction false} AccumulateStopsAtFirstCrlf(res: string, rest: string)
    requires |res| >= 2 && CrlfOnlyAtEnd(res)
    requires rest != [] ==> res[|res| - 1] == '\n'
    ensures Accumulate(res, rest).Ok? ==> NoCrlf(Accumulate(res, rest).value.value)
    decreases |rest|
  {
    if res[|res| - 2..] != "\r\n" && |res| <= MaxHeaderLineLength && rest != [] {
      var more := ReadLine(rest);
      var next := res + more.value;
      forall i | 0 <= i < |next| - 2 ensures !(next[i] == '\r' && next[i + 1] == '\n') {
        if i + 1 < |res| - 1 {
        } else if i + 1 == |res| - 1 {
          assert res[|res| - 2..] == [res[|res| - 2], res[|res| - 1]];
        } else if i + 1 == |res| {
          assert next[i] == '\n';
        } else {
          assert next[i + 1] == more.value[i + 1 - |res|];
          assert more.value[i + 1 - |res|] in more.value[..|more.value| - 1];
        }
      }
      AccumulateStopsAtFirstCrlf(next, more.rest);
    }
  }

  /**
    A successful `read_new_line` returns the stream up to its first CRLF: the
    stream is the line, a CRLF and the rest, and the line holds no CRLF.
   */
  lemma NewLineIsFirstLine(input: string)
    ensures NewLine(input).Ok? ==>
      input == NewLine(input).value.value + "\r\n" + NewLine(input).value.rest && NoCrlf(NewLine(input).value.value)
  {
    var first := ReadLine(input);
    if |first.value| >= 2 {
      var v := first.value;
      forall i | 0 <= i < |v| - 2 ensures !(v[i] == '\r' && v[i + 1] == '\n') {
        assert v[i + 1] in v[..|v| - 1];
      }
      AccumulateStopsAtFirstCrlf(v, first.rest);
    }
  }

  /** A line without a line feed, followed by CRLF, is read back exactly, and the stream resumes after the CRLF. */
  lemma NewLineOfLine(line: string, rest: string)
    requires '\n' !in line
    ensures NewLine(line + "\r\n" + rest) == Ok(Read(line, rest))
  {
    var input := line + "\r\n" + rest;
    assert input[|line| + 1] == '\n';
    assert input[..|line| + 2] == line + "\r\n";
    assert IndexOf(input, '\n') == Some(|line| + 1) by {
      assert '\n' !in input[..|line| + 1] by {
        assert input[..|line| + 1] == line + "\r";
      }
    }
    assert input[|line| + 2..] == rest;
  }

  /** A stream whose first piece is shorter than two characters is refused as invalid data. */
  lemma NewLineTooShort(input: string)
    requires |ReadLine(input).value| < 2
    ensures NewLine(input) == Err(IoError(InvalidData, ShortLineMessage))
  {
  }

  /** A stream with no line feed and more than 4096 characters fails on the length limit. */
  lemma NewLineTooLong(input: string)
    requires '\n' !in input && |input| > MaxHeaderLineLength
    ensures NewLine(input) == Err(IoError(InvalidData, LongLineMessage))
  {
    assert input[|input| - 1] in input;
  }

  /**
    `split_header_line`: `splitn(2, ":")` then trim both parts. The key is the
    text before the first ':', the value the text after it, or "" when there is no ':'.
   */
  function SplitHeaderLine(line: string): (r: (string, string))
    ensures ':' !in r.0
    ensures r.0 == [] || (!IsWhitespace(r.0[0]) && !IsWhitespace(r.0[|r.0| - 1]))
    ensures r.1 == [] || (!IsWhitespace(r.1[0]) && !IsWhitespace(r.1[|r.1| - 1]))
  {
    match IndexOf(line, ':')
    case None => (Trim(line), "")
    case Some(i) =>
      var k := Trim(line[..i]);
      TrimChars(line[..i]);
      (k, Trim(line[i + 1..]))
  }

  /** Without a ':' the whole line, trimmed, is the key and the value is empty; otherwise the line splits at its first ':'. */
  lemma SplitAtFirstColon(line: string, i: nat)
    requires ':' !in line ==> i == |line|
    requires ':' in line ==> i < |line| && line[i] == ':' && ':' !in line[..i]
    ensures ':' !in line ==> SplitHeaderLine(line) == (Trim(line), "")
    ensures ':' in line ==> SplitHeaderLine(line) == (Trim(line[..i]), Trim(line[i + 1..]))
  {
    if ':' in line {
      IndexOfUnique(line, ':', i);
    }
  }

  /** A line `key: value` splits at the colon after the key, whatever the key and the value are trimmed to. */
  lemma SplitFieldLine(key: string, value: string)
    requires ':' !in key
    ensures SplitHeaderLine(key + ": " + value) == (Trim(key), Trim(" " + value))
  {
    var line := key + ": " + value;
    assert line[|key|] == ':';
    assert line[..|key|] == key;
    assert line[|key| + 1..] == " " + value;
    SplitAtFirstColon(line, |key|);
  }

  /** A key and a value without whitespace at their ends survive the trimming. */
  lemma TrimField(key: string, value: string)
    requires key == [] || (!IsWhitespace(key[0]) && !IsWhitespace(key[|key| - 1]))
    requires value == [] || (!IsWhitespace(value[0]) && !IsWhitespace(value[|value| - 1]))
    ensures Trim(key) == key && Trim(" " + value) == value
  {
    TrimTrimmed(key);
    TrimTrimmed(value);
  }

  /** A header written as `key: value` splits back into the key and the value. */
  lemma SplitHeaderLineOfField(key: string, value: string)
    requires ':' !in key
    requires key == [] || (!IsWhitespace(key[0]) && !IsWhitespace(key[|key| - 1]))
    requires value == [] || (!IsWhitespace(value[0]) && !IsWhitespace(value[|value| - 1]))
    ensures SplitHeaderLine(key + ": " + value) == (key, value)
  {
    SplitFieldLine(key, value);
    TrimField(key, value);
  }

  /** `parse_headers`: read lines until an empty one, inserting each split line into the map. */
  function ParseHeaders(input: string, headers: map<string, string>): (r: Result<Read<map<string, string>>>)
    ensures r.Ok? ==> headers.Keys <= r.value.value.Keys
    decreases |input|
  {
    match NewLine(input)
    case Err(e) => Err(e)
    case Ok(Read(line, rest)) =>
      if line == [] then Ok(Read(headers, rest))
      else
        var kv := SplitHeaderLine(line);
        ParseHeaders(rest, headers[kv.0 := kv.1])
  }

  /** The key and value of each header line. */
  function Fields(lines: seq<string>): (fs: seq<(string, string)>)
    ensures |fs| == |lines|
  {
    if lines == [] then [] else [SplitHeaderLine(lines[0])] + Fields(lines[1..])
  }

  /** The fields put in the map in order: a later field for the same key overwrites an earlier one. */
  function Store(fs: seq<(string, string)>, headers: map<string, string>): map<string, string> {
    if fs == [] then headers else Store(fs[1..], headers[fs[0].0 := fs[0].1])
  }

  /** The lines joined, each followed by CRLF. */
  function CrlfLines(lines: seq<string>): string {
    if lines == [] then [] else lines[0] + "\r\n" + CrlfLines(lines[1..])
  }

  /** A header block of non-empty lines without line feeds, ended by an empty line, is read into the map in order. */
  lemma {:induction false} ParseHeadersOfLines(lines: seq<string>, rest: string, headers: map<string, string>)
    requires forall i :: 0 <= i < |lines| ==> lines[i] != [] && '\n' !in lines[i]
    ensures ParseHeaders(CrlfLines(lines) + "\r\n" + rest, headers) == Ok(Read(Store(Fields(lines), headers), rest))
  {
    var input := CrlfLines(lines) + "\r\n" + rest;
    if lines == [] {
      assert input == [] + "\r\n" + rest;
      NewLineOfLine([], rest);
    } else {
      var tail := CrlfLines(lines[1..]) + "\r\n" + rest;
      assert input == lines[0] + "\r\n" + tail;
      NewLineOfLine(lines[0], tail);
      var kv := SplitHeaderLine(lines[0]);
      ParseHeadersOfLines(lines[1..], rest, headers[kv.0 := kv.1]);
    }
  }

  /** The keys the fields set. */
  function FieldKeys(fs: seq<(string, string)>): set<string> {
    if fs == [] then {} else {fs[0].0} + FieldKeys(fs[1..])
  }

  /** Last write wins: the value of a key is that of the last field with this key. */
  lemma {:induction false} StoreLastWins(fs: seq<(string, string)>, headers: map<string, string>, j: nat)
    requires j < |fs| && fs[j].0 !in FieldKeys(fs[j + 1..])
    ensures fs[j].0 in Store(fs, headers) && Store(fs, headers)[fs[j].0] == fs[j].1
  {
    var hs := headers[fs[0].0 := fs[0].1];
    if j == 0 {
      StoreKeeps(fs[1..], hs, fs[0].0);
    } else {
      assert fs[1..][j - 1] == fs[j] && fs[1..][j..] == fs[j + 1..];
      StoreLastWins(fs[1..], hs, j - 1);
    }
  }

  /** A key that no field sets keeps its value. */
  lemma {:induction false} StoreKeeps(fs: seq<(string, string)>, headers: map<string, string>, k: string)
    requires k in headers && k !in FieldKeys(fs)
    ensures k in Store(fs, headers) && Store(fs, headers)[k] == headers[k]
  {
    if fs != [] {
      StoreKeeps(fs[1..], headers[fs[0].0 := fs[0].1], k);
    }
  }

  /** The map holds the old keys and exactly the keys the fields set. */
  lemma {:induction false} StoreKeys(fs: seq<(string, string)>, headers: map<string, string>)
    ensures Store(fs, headers).Keys == headers.Keys + FieldKeys(fs)
  {
    if fs != [] {
      StoreKeys(fs[1..], headers[fs[0].0 := fs[0].1]);
    }
  }

  /**
    `Req::new`: the first line split on whitespace gives the method, which
    must be one of the four known ones, then the path and the version (empty
    when missing); then the headers are read into an empty map.
   */
  function Parse(input: string): (r: Result<Req>)
    ensures r.Ok? ==> r.value.verb != UNKNOWN
  {
    match NewLine(input)
    case Err(e) => Err(e)
    case Ok(Read(first, rest)) =>
      var tokens := Tokens(first);
      if tokens == [] then Err(IoError(InvalidData, BadFirstLineMessage))
      else if FromStr(tokens[0]) == UNKNOWN then Err(IoError(InvalidData, BadMethodMessage))
      else match ParseHeaders(rest, map[])
        case Err(e) => Err(e)
        case Ok(Read(headers, body)) =>
          Ok(Req(FromStr(tokens[0]), TokenOr(tokens, 1), TokenOr(tokens, 2), headers, body))
  }

  /**
    What `Req::new` does with the first line: no token at all, or an unknown
    method, is invalid data; otherwise the method, path and version are the first three tokens.
   */
  lemma ParseFirstLine(first: string, rest: string)
    requires '\n' !in first
    ensures Tokens(first) == [] ==> Parse(first + "\r\n" + rest) == Err(IoError(InvalidData, BadFirstLineMessage))
    ensures Tokens(first) != [] && FromStr(Tokens(first)[0]) == UNKNOWN ==>
      Parse(first + "\r\n" + rest) == Err(IoError(InvalidData, BadMethodMessage))
    ensures Parse(first + "\r\n" + rest).Ok? ==>
      var r := Parse(first + "\r\n" + rest).value;
      && Tokens(first) != [] && r.verb == FromStr(Tokens(first)[0])
      && r.path == TokenOr(Tokens(first), 1) && r.version == TokenOr(Tokens(first), 2)
  {
    NewLineOfLine(first, rest);
  }

  /** `Req::new` read step by step, as the source sets the fields of the request. */
  method New(input: string) returns (r: Result<Req>)
    ensures r == Parse(input)
  {
    var verb, path, version := UNKNOWN, "", "";
    var firstLine := ReadNewLine(input);
    if firstLine.Err? {
      return Err(firstLine.error);
    }
    var tokens := Tokens(firstLine.value.value);
    if |tokens| > 0 {
      match FromStr(tokens[0]) {
        case UNKNOWN => return Err(IoError(InvalidData, BadMethodMessage));
        case m => verb := m;
      }
    } else {
      return Err(IoError(InvalidData, BadFirstLineMessage));
    }
    if |tokens| > 1 {
      path := tokens[1];
    }
    if |tokens| > 2 {
      version := tokens[2];
    }
    var headers := ReadHeaders(firstLine.value.rest, map[]);
    if headers.Err? {
      return Err(headers.error);
    }
    return Ok(Req(verb, path, version, headers.value.value, headers.value.rest));
  }

  /** `Req::parse_headers`: read a line; stop at an empty one, else insert the split line and go on. */
  method ReadHeaders(input: string, headers: map<string, string>) returns (r: Result<Read<map<string, string>>>)
    ensures r == ParseHeaders(input, headers)
    decreases |input|
  {
    var line := ReadNewLine(input);
    if line.Err? {
      return Err(line.error);
    }
    if line.value.value == [] {
      return Ok(Read(headers, line.value.rest));
    }
    var kv := SplitHeaderLine(line.value.value);
    r := ReadHeaders(line.value.rest, headers[kv.0 := kv.1]);
  }


  /** Lines whose splits are the given fields, one by one, give exactly those fields. */
  lemma {:induction false} FieldsOf(lines: seq<string>, fs: seq<(string, string)>)
    requires |lines| == |fs|
    requires forall i :: 0 <= i < |lines| ==> SplitHeaderLine(lines[i]) == fs[i]
    ensures Fields(lines) == fs
  {
    if lines != [] {
      FieldsOf(lines[1..], fs[1..]);
    }
  }

  /** A field a header line can carry back unchanged: no colon in the key, no whitespace at the ends of either part. */
  predicate Clean(f: (string, string)) {
    && ':' !in f.0
    && (f.0 == [] || (!IsWhitespace(f.0[0]) && !IsWhitespace(f.0[|f.0| - 1])))
    && (f.1 == [] || (!IsWhitespace(f.1[0]) && !IsWhitespace(f.1[|f.1| - 1])))
  }

  /** Header fields written out as `key: value` lines, one per field. */
  function FieldLines(fs: seq<(string, string)>): (lines: seq<string>)
    ensures |lines| == |fs|
    ensures forall i :: 0 <= i < |fs| ==> lines[i] == fs[i].0 + ": " + fs[i].1
  {
    if fs == [] then [] else [fs[0].0 + ": " + fs[0].1] + FieldLines(fs[1..])
  }

  /** Writing clean fields as header lines and splitting the lines again gives the fields back. */
  lemma FieldsOfFieldLines(fs: seq<(string, string)>)
    requires forall i :: 0 <= i < |fs| ==> Clean(fs[i])
    ensures Fields(FieldLines(fs)) == fs
  {
    var lines := FieldLines(fs);
    forall i | 0 <= i < |fs| ensures SplitHeaderLine(lines[i]) == fs[i] {
      SplitLineOfField(lines[i], fs[i]);
    }
    FieldsOf(lines, fs);
  }

  /** One clean field written as a line splits back into itself. */
  lemma SplitLineOfField(line: string, f: (string, string))
    requires Clean(f) && line == f.0 + ": " + f.1
    ensures SplitHeaderLine(line) == f
  {
    SplitHeaderLineOfField(f.0, f.1);
  }

  /** Storing three fields writes them into the map one after another. */
  lemma StoreOfThree(f1: (string, string), f2: (string, string), f3: (string, string), headers: map<string, string>)
    ensures Store([f1, f2, f3], headers) == headers[f1.0 := f1.1][f2.0 := f2.1][f3.0 := f3.1]
  {
    var fs := [f1, f2, f3];
    assert fs[1..] == [f2, f3];
    assert [f2, f3][1..] == [f3];
    assert [f3][1..] == [];
    var h1 := headers[f1.0 := f1.1];
    var h2 := h1[f2.0 := f2.1];
    assert Store([f3], h2) == h2[f3.0 := f3.1];
    assert Store([f2, f3], h1) == Store([f3], h2);
  }

  /**
    A request whose first line has at least a known method, followed by
    header lines ended by an empty line, parses to the tokens of the first
    line, the header map the lines store, and whatever follows as the body.
   */
  lemma ParseOfParts(first: string, lines: seq<string>, body: string)
    requires '\n' !in first
    requires Tokens(first) != [] && FromStr(Tokens(first)[0]) != UNKNOWN
    requires forall i :: 0 <= i < |lines| ==> lines[i] != [] && '\n' !in lines[i]
    ensures Parse(first + "\r\n" + CrlfLines(lines) + "\r\n" + body)
         == Ok(Req(FromStr(Tokens(first)[0]), TokenOr(Tokens(first), 1), TokenOr(Tokens(first), 2),
                   Store(Fields(lines), map[]), body))
  {
    var block := CrlfLines(lines);
    var rest := block + "\r\n" + body;
    Regroup(first, block, body);
    NewLineOfLine(first, rest);
    ParseHeadersOfLines(lines, body, map[]);
    ParseOfReads(first + "\r\n" + rest, first, rest, Store(Fields(lines), map[]), body);
  }

  lemma Regroup(first: string, block: string, body: string)
    ensures first + "\r\n" + block + "\r\n" + body == first + "\r\n" + (block + "\r\n" + body)
  {
  }

  /** A first line with a known method, then headers that read without error, make a request. */
  lemma ParseOfReads(input: string, first: string, rest: string, headers: map<string, string>, body: string)
    requires NewLine(input) == Ok(Read(first, rest))
    requires Tokens(first) != [] && FromStr(Tokens(first)[0]) != UNKNOWN
    requires ParseHeaders(rest, map[]) == Ok(Read(headers, body))
    ensures Parse(input) == Ok(Req(FromStr(Tokens(first)[0]), TokenOr(Tokens(first), 1), TokenOr(Tokens(first), 2), headers, body))
  {
  }
}
