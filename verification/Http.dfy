/**
 The HTTP request parser: what it makes of a byte stream, as a function, and the properties
 of that function.
 */
module HttpMessages {
  import opened Bytes

  const LF: Byte := 10
  const CR: Byte := 13
  const SP: Byte := 32
  const COLON: Byte := 58
  const QUESTION: Byte := 63

  type Text = seq<Byte>

  function Ascii(s: string): (t: Text)
    requires forall i :: 0 <= i < |s| ==> s[i] as int < 256
    ensures |t| == |s| && forall i :: 0 <= i < |s| ==> t[i] == s[i] as int
  {
    seq(|s|, i requires 0 <= i < |s| => s[i] as int)
  }

  datatype Method = Invalid | Get | Post | Head | Put | Delete

  datatype Version = Unknown | Http10 | Http11

  datatype Request = Request(verb: Method, version: Version, path: Text, query: Text, headers: map<Text, Text>)

  const EMPTY_REQUEST := Request(Invalid, Unknown, [], [], map[])

  datatype State = ExpectRequestLine | ExpectHeaders | ExpectBody | GotAll

  // ---- Searching ----

  /** Position of the first `c`, or the length. */
  function Find(s: Text, c: Byte): (i: nat)
    ensures i <= |s| && forall k :: 0 <= k < i ==> s[k] != c
    ensures i < |s| ==> s[i] == c
  {
    if s == [] || s[0] == c then 0 else Find(s[1..], c) + 1
  }

  predicate CrlfAt(s: Text, i: nat) {
    i + 1 < |s| && s[i] == CR && s[i + 1] == LF
  }

  /** Position of the first line end at or after `from`, or the length. */
  function FindCrlf(s: Text, from: nat := 0): (i: nat)
    requires from <= |s|
    ensures from <= i <= |s|
    ensures i < |s| ==> CrlfAt(s, i)
    ensures forall k :: from <= k < i ==> !CrlfAt(s, k)
    decreases |s| - from
  {
    if from == |s| || CrlfAt(s, from) then from else FindCrlf(s, from + 1)
  }

  /** Text without carriage returns followed by a line end ends there. */
  lemma LineEnds(line: Text, tail: Text)
    requires CR !in line
    ensures var s := line + [CR, LF] + tail;
            FindCrlf(s) == |line| && s[..|line|] == line && s[|line| + 2..] == tail
  {
    var s := line + [CR, LF] + tail;
    assert CrlfAt(s, |line|);
    forall k | 0 <= k < |line|
      ensures !CrlfAt(s, k)
    {
      assert s[k] == line[k] && line[k] in line;
    }
  }

  // ---- The request line ----

  function MethodOf(token: Text): Method {
    if token == Ascii("GET") then Get
    else if token == Ascii("POST") then Post
    else if token == Ascii("HEAD") then Head
    else if token == Ascii("PUT") then Put
    else if token == Ascii("DELETE") then Delete
    else Invalid
  }

  function MethodName(m: Method): Text {
    match m
    case Get => Ascii("GET")
    case Post => Ascii("POST")
    case Head => Ascii("HEAD")
    case Put => Ascii("PUT")
    case Delete => Ascii("DELETE")
    case Invalid => Ascii("UNKNOWN")
  }

  function VersionOf(token: Text): Version {
    if |token| == 8 && token[..7] == Ascii("HTTP/1.") then
      if token[7] == '1' as int then Http11 else if token[7] == '0' as int then Http10 else Unknown
    else Unknown
  }

  function VersionName(v: Version): Text
    requires !v.Unknown?
  {
    if v.Http10? then Ascii("HTTP/1.0") else Ascii("HTTP/1.1")
  }

  /** The path up to the first question mark, and the query from it on; without a question
      mark the query stays what it was. */
  function SetTarget(r: Request, target: Text): Request {
    var question := Find(target, QUESTION);
    if question < |target| then r.(path := target[..question], query := target[question..])
    else r.(path := target)
  }

  /** Whether a request line is accepted, and what the request has become either way. */
  function RequestLine(r: Request, line: Text): (bool, Request) {
    var space := Find(line, SP);
    if space == |line| then (false, r)
    else
      var r1 := r.(verb := MethodOf(line[..space]));
      var rest := line[space + 1..];
      var next := Find(rest, SP);
      if r1.verb.Invalid? || next == |rest| then (false, r1)
      else
        var r2 := SetTarget(r1, rest[..next]);
        var version := VersionOf(rest[next + 1..]);
        if version.Unknown? then (false, r2) else (true, r2.(version := version))
  }

  // ---- Header lines ----

  predicate IsSpace(c: Byte) {
    c == SP || 9 <= c <= 13
  }

  function TrimLeft(s: Text): (t: Text)
    ensures t == [] || !IsSpace(t[0])
  {
    if s != [] && IsSpace(s[0]) then TrimLeft(s[1..]) else s
  }

  function TrimRight(s: Text): (t: Text)
    ensures t == [] || !IsSpace(t[|t| - 1])
  {
    if s != [] && IsSpace(s[|s| - 1]) then TrimRight(s[..|s| - 1]) else s
  }

  function AddHeader(r: Request, line: Text, colon: nat): Request
    requires colon < |line|
  {
    r.(headers := r.headers[line[..colon] := TrimRight(TrimLeft(line[colon + 1..]))])
  }

  // ---- The parser ----

  /** What the head of the stream calls for. */
  datatype Turn = Wait | Fail(request: Request) | Finish(size: nat) | Advance(size: nat, request: Request)

  function Inspect(state: State, r: Request, bytes: Text): (t: Turn)
    requires state.ExpectRequestLine? || state.ExpectHeaders?
    ensures t.Finish? || t.Advance? ==> 2 <= t.size <= |bytes|
  {
    var crlf := FindCrlf(bytes);
    if crlf == |bytes| then Wait
    else
      var line := bytes[..crlf];
      if state.ExpectRequestLine? then
        var (ok, r1) := RequestLine(r, line);
        if ok then Advance(crlf + 2, r1) else Fail(r1)
      else
        var colon := Find(line, COLON);
        if colon < crlf then Advance(crlf + 2, AddHeader(r, line, colon)) else Finish(crlf + 2)
  }

  datatype Result = Result(ok: bool, state: State, request: Request, rest: Text)

  /** What `parseRequest` makes of a buffer: one line after another while there are any. */
  function Parse(state: State, r: Request, bytes: Text): (p: Result)
    requires state.ExpectRequestLine? || state.ExpectHeaders?
    ensures p.state != ExpectBody
    ensures p.state == GotAll ==> p.ok && |p.rest| < |bytes|
    decreases |bytes|
  {
    match Inspect(state, r, bytes)
    case Wait => Result(true, state, r, bytes)
    case Fail(r1) => Result(false, state, r1, bytes)
    case Finish(size) => Result(true, GotAll, r, bytes[size..])
    case Advance(size, r1) => Parse(ExpectHeaders, r1, bytes[size..])
  }

  /** One turn of the loop of `parseRequest`. */
  lemma ParseTurn(state: State, r: Request, bytes: Text)
    requires state.ExpectRequestLine? || state.ExpectHeaders?
    ensures var crlf := FindCrlf(bytes);
            if crlf == |bytes| then Parse(state, r, bytes) == Result(true, state, r, bytes)
            else if state.ExpectRequestLine? then
              var (ok, r1) := RequestLine(r, bytes[..crlf]);
              Parse(state, r, bytes) == if ok then Parse(ExpectHeaders, r1, bytes[crlf + 2..])
                                        else Result(false, state, r1, bytes)
            else
              var colon := Find(bytes[..crlf], COLON);
              Parse(state, r, bytes) == if colon < crlf then Parse(ExpectHeaders, AddHeader(r, bytes[..crlf], colon), bytes[crlf + 2..])
                                        else Result(true, GotAll, r, bytes[crlf + 2..])
  {
    hide RequestLine, AddHeader, Find, FindCrlf;
  }

  /** While no request line was taken the request is what it was. */
  lemma WaitingChangesNothing(state: State, r: Request, bytes: Text)
    requires state.ExpectRequestLine? || state.ExpectHeaders?
    ensures var p := Parse(state, r, bytes);
            p.ok && p.state.ExpectRequestLine? ==> state.ExpectRequestLine? && p.request == r
  {
    hide RequestLine, AddHeader, Find, FindCrlf;
    var turn := Inspect(state, r, bytes);
    if state.ExpectHeaders? {
      NeverBack(r, bytes);
    } else if turn.Advance? {
      NeverBack(turn.request, bytes[turn.size..]);
    }
  }

  lemma {:induction false} NeverBack(r: Request, bytes: Text)
    ensures !Parse(ExpectHeaders, r, bytes).state.ExpectRequestLine? && Parse(ExpectHeaders, r, bytes).ok
    decreases |bytes|
  {
    hide AddHeader, Find, FindCrlf;
    match Inspect(ExpectHeaders, r, bytes) {
      case Wait =>
      case Finish(_) =>
      case Advance(size, r1) => NeverBack(r1, bytes[size..]);
    }
  }

  // ---- Independence of the cut into chunks ----

  lemma InspectAppend(state: State, r: Request, a: Text, b: Text)
    requires state.ExpectRequestLine? || state.ExpectHeaders?
    ensures !Inspect(state, r, a).Wait? ==> Inspect(state, r, a + b) == Inspect(state, r, a)
  {
    hide RequestLine, AddHeader, Find;
    var crlf := FindCrlf(a);
    if crlf < |a| {
      forall k | 0 <= k < crlf
        ensures !CrlfAt(a + b, k)
      {
        assert !CrlfAt(a, k);
      }
      assert CrlfAt(a + b, crlf);
      assert (a + b)[..crlf] == a[..crlf];
    }
  }

  /** A prefix that parses without completing the request leaves the parser where parsing the
      whole at once goes on from; a prefix that completes it, or is refused, decides the
      whole. */
  lemma {:induction false} ParseAppend(state: State, r: Request, a: Text, b: Text)
    requires state.ExpectRequestLine? || state.ExpectHeaders?
    ensures var p := Parse(state, r, a);
            && (p.ok && p.state != GotAll ==>
                  && (p.state.ExpectRequestLine? || p.state.ExpectHeaders?)
                  && Parse(state, r, a + b) == Parse(p.state, p.request, p.rest + b))
            && (!p.ok || p.state == GotAll ==> Parse(state, r, a + b) == p.(rest := p.rest + b))
    decreases |a|
  {
    hide Inspect;
    InspectAppend(state, r, a, b);
    match Inspect(state, r, a) {
      case Wait =>
      case Fail(_) =>
      case Finish(size) =>
        assert (a + b)[size..] == a[size..] + b;
      case Advance(size, r1) =>
        assert (a + b)[size..] == a[size..] + b;
        ParseAppend(ExpectHeaders, r1, a[size..], b);
    }
  }

  /** Parsing a stream that arrives in chunks, for as long as the parser is not done. */
  function Feed(chunks: seq<Text>): (p: Result)
    ensures p.state != ExpectBody
    decreases |chunks|
  {
    if chunks == [] then Result(true, ExpectRequestLine, EMPTY_REQUEST, [])
    else
      var p := Feed(chunks[..|chunks| - 1]);
      var bytes := p.rest + chunks[|chunks| - 1];
      if !p.ok || p.state == GotAll then p.(rest := bytes) else Parse(p.state, p.request, bytes)
  }

  /** However a stream is cut, the verdict, the state, the request and the unread bytes are
      those of parsing all of it at once. */
  lemma {:induction false} ChunksDoNotMatter(chunks: seq<Text>)
    ensures Feed(chunks) == Parse(ExpectRequestLine, EMPTY_REQUEST, Concat(chunks))
  {
    hide Parse, Inspect;
    if chunks == [] {
      NothingToParse();
    } else {
      var front := chunks[..|chunks| - 1];
      ChunksDoNotMatter(front);
      ParseAppend(ExpectRequestLine, EMPTY_REQUEST, Concat(front), chunks[|chunks| - 1]);
    }
  }

  lemma NothingToParse()
    ensures Parse(ExpectRequestLine, EMPTY_REQUEST, []) == Result(true, ExpectRequestLine, EMPTY_REQUEST, [])
  {
    assert Inspect(ExpectRequestLine, EMPTY_REQUEST, []).Wait?;
  }

  // ---- Which requests are understood ----

  lemma NamesRoundTrip()
    ensures forall m: Method :: !m.Invalid? ==> MethodOf(MethodName(m)) == m && SP !in MethodName(m) && CR !in MethodName(m)
    ensures forall v: Version :: !v.Unknown? ==> VersionOf(VersionName(v)) == v && CR !in VersionName(v)
  {
    assert Ascii("HEAD")[0] != Ascii("POST")[0];
    forall m: Method | !m.Invalid?
      ensures MethodOf(MethodName(m)) == m && SP !in MethodName(m) && CR !in MethodName(m)
    {
      match m {
        case Get =>
        case Post =>
        case Head =>
        case Put =>
        case Delete =>
      }
    }
    forall v: Version | !v.Unknown?
      ensures VersionOf(VersionName(v)) == v && CR !in VersionName(v)
    {
      assert VersionName(v)[..7] == Ascii("HTTP/1.");
    }
  }

  lemma NamesAreUnique(token: Text)
    ensures !MethodOf(token).Invalid? ==> token == MethodName(MethodOf(token))
    ensures !VersionOf(token).Unknown? ==> token == VersionName(VersionOf(token))
  {
    if !VersionOf(token).Unknown? {
      assert token == token[..7] + [token[7]];
      assert VersionName(VersionOf(token)) == Ascii("HTTP/1.") + [token[7]];
    }
  }

  /** The five methods and the two versions, by their names. */
  lemma KnownNames(token: Text)
    ensures MethodOf(token) == Get <==> token == Ascii("GET")
    ensures MethodOf(token) == Post <==> token == Ascii("POST")
    ensures MethodOf(token) == Head <==> token == Ascii("HEAD")
    ensures MethodOf(token) == Put <==> token == Ascii("PUT")
    ensures MethodOf(token) == Delete <==> token == Ascii("DELETE")
    ensures VersionOf(token) == Http10 <==> token == Ascii("HTTP/1.0")
    ensures VersionOf(token) == Http11 <==> token == Ascii("HTTP/1.1")
  {
    assert Ascii("POST")[0] != Ascii("HEAD")[0] && Ascii("PUT")[0] != Ascii("GET")[0];
    assert Ascii("HTTP/1.0") == Ascii("HTTP/1.") + ['0' as int];
    assert Ascii("HTTP/1.1") == Ascii("HTTP/1.") + ['1' as int];
    if |token| == 8 {
      assert token == token[..7] + [token[7]];
    }
  }

  /** A request line: method, one space, a target without spaces, one space, version. */
  function RenderLine(m: Method, target: Text, v: Version): Text
    requires !v.Unknown?
  {
    MethodName(m) + [SP] + (target + [SP] + VersionName(v))
  }

  lemma SplitAtSpace(token: Text, rest: Text)
    requires SP !in token
    ensures var line := token + [SP] + rest;
            Find(line, SP) == |token| && line[..|token|] == token && line[|token| + 1..] == rest
  {
    var line := token + [SP] + rest;
    assert line[..|token|] == token;
    assert line[|token|] == SP;
  }

  lemma RenderedLine(r: Request, m: Method, target: Text, v: Version)
    requires !m.Invalid? && !v.Unknown? && SP !in target
    ensures RequestLine(r, RenderLine(m, target, v)) == (true, SetTarget(r.(verb := m), target).(version := v))
  {
    hide MethodOf, MethodName, VersionOf, VersionName, SetTarget, Find;
    NamesRoundTrip();
    SplitAtSpace(MethodName(m), target + [SP] + VersionName(v));
    SplitAtSpace(target, VersionName(v));
  }

  /** The target of a message: a path without question marks, and a query, which is empty or
      begins with one. */
  predicate IsTarget(path: Text, query: Text) {
    && (forall i :: 0 <= i < |path| ==> path[i] != 63 && path[i] != SP && path[i] != CR)
    && (forall i :: 0 <= i < |query| ==> query[i] != SP && query[i] != CR)
    && (query != [] ==> query[0] == 63)
  }

  lemma TargetParts(r: Request, path: Text, query: Text)
    requires IsTarget(path, query)
    ensures SetTarget(r, path + query) == r.(path := path, query := if query == [] then r.query else query)
  {
    var target := path + query;
    if query == [] {
      assert target == path;
    } else {
      assert target[|path|] == 63;
      assert target[..|path|] == path && target[|path|..] == query;
    }
  }

  /** Every target can be taken apart in this way. */
  lemma TargetSplits(target: Text) returns (path: Text, query: Text)
    requires SP !in target && CR !in target
    ensures target == path + query && IsTarget(path, query)
  {
    var question := Find(target, QUESTION);
    path, query := target[..question], target[question..];
  }

  /** The request line of a message yields its method, path, query and version. */
  lemma RenderedRequestLine(r: Request, m: Method, path: Text, query: Text, v: Version)
    requires !m.Invalid? && !v.Unknown? && IsTarget(path, query)
    ensures SP !in path + query && CR !in path + query
    ensures RequestLine(r, RenderLine(m, path + query, v))
         == (true, r.(verb := m, path := path, query := if query == [] then r.query else query, version := v))
  {
    hide RequestLine, RenderLine, SetTarget;
    RenderedLine(r, m, path + query, v);
    TargetParts(r.(verb := m), path, query);
  }

  lemma CutAtFirst(s: Text, c: Byte)
    requires Find(s, c) < |s|
    ensures s == s[..Find(s, c)] + [c] + s[Find(s, c) + 1..] && c !in s[..Find(s, c)]
  {
    var i := Find(s, c);
    hide Find;
    assert s[i] == c && forall k :: 0 <= k < i ==> s[k] != c;
    assert s == s[..i] + s[i..] && s[i..] == [s[i]] + s[i + 1..];
  }

  lemma Decompose(r: Request, line: Text) returns (m: Method, target: Text, v: Version)
    requires RequestLine(r, line).0
    ensures !m.Invalid? && !v.Unknown? && SP !in target && line == RenderLine(m, target, v)
  {
    hide MethodOf, MethodName, VersionOf, VersionName, SetTarget, Find;
    var space := Find(line, SP);
    var rest := line[space + 1..];
    var next := Find(rest, SP);
    m, target, v := MethodOf(line[..space]), rest[..next], VersionOf(rest[next + 1..]);
    NamesAreUnique(line[..space]);
    NamesAreUnique(rest[next + 1..]);
    CutAtFirst(line, SP);
    CutAtFirst(rest, SP);
  }

  /** A request line is accepted if and only if it is a known method, a target without spaces
      and a known version, separated by single spaces. */
  lemma AcceptedIffWellFormed(r: Request, line: Text)
    ensures RequestLine(r, line).0
       <==> exists m: Method, target: Text, v: Version ::
              !m.Invalid? && !v.Unknown? && SP !in target && line == RenderLine(m, target, v)
  {
    hide RequestLine, RenderLine;
    if RequestLine(r, line).0 {
      var m, target, v := Decompose(r, line);
    }
    if m: Method, target: Text, v: Version :|
      !m.Invalid? && !v.Unknown? && SP !in target && line == RenderLine(m, target, v)
    {
      RenderedLine(r, m, target, v);
    }
  }

  // ---- Round trip ----

  /** A header as sent: its name, its value, and white space around the value. */
  datatype Header = Header(name: Text, lead: Text, value: Text, trail: Text)

  predicate Blank(s: Text) {
    forall i :: 0 <= i < |s| ==> s[i] == 32 || 9 <= s[i] <= 13
  }

  predicate Clean(s: Text) {
    s != [] ==> !Blank(s[..1]) && !Blank(s[|s| - 1..])
  }

  predicate Sendable(h: Header) {
    && COLON !in h.name && CR !in h.name + h.lead + h.value + h.trail
    && Blank(h.lead) && Blank(h.trail) && Clean(h.value)
  }

  function RenderHeader(h: Header): Text {
    h.name + [COLON] + (h.lead + h.value + h.trail)
  }

  function RenderHeaders(headers: seq<Header>): Text {
    if headers == [] then [CR, LF]
    else RenderHeader(headers[0]) + [CR, LF] + RenderHeaders(headers[1..])
  }

  /** A later header of the same name replaces an earlier one. */
  function Collect(headers: seq<Header>, before: map<Text, Text>): map<Text, Text> {
    if headers == [] then before
    else Collect(headers[1..], before[headers[0].name := headers[0].value])
  }

  /** No header from `from` on has the name. */
  predicate NoneNamed(headers: seq<Header>, from: nat, name: Text) {
    forall i :: from <= i < |headers| ==> headers[i].name != name
  }

  lemma {:induction false} OthersCollected(headers: seq<Header>, before: map<Text, Text>, name: Text)
    requires NoneNamed(headers, 0, name)
    ensures var after := Collect(headers, before);
            (name in after <==> name in before) && (name in before ==> after[name] == before[name])
  {
    if headers != [] {
      assert forall i :: 0 <= i < |headers| - 1 ==> headers[1..][i] == headers[i + 1];
      OthersCollected(headers[1..], before[headers[0].name := headers[0].value], name);
    }
  }

  /** Of several headers of one name the value of the last counts. */
  lemma {:induction false} LastValueCounts(headers: seq<Header>, before: map<Text, Text>, i: nat)
    requires i < |headers| && NoneNamed(headers, i + 1, headers[i].name)
    ensures var after := Collect(headers, before); headers[i].name in after && after[headers[i].name] == headers[i].value
  {
    var tail := headers[1..];
    assert forall k :: 0 <= k < |tail| ==> tail[k] == headers[k + 1];
    if i == 0 {
      OthersCollected(tail, before[headers[0].name := headers[0].value], headers[0].name);
    } else {
      LastValueCounts(tail, before[headers[0].name := headers[0].value], i - 1);
    }
  }

  lemma {:induction false} TrimLeftBlank(lead: Text, rest: Text)
    requires Blank(lead)
    ensures TrimLeft(lead + rest) == TrimLeft(rest)
  {
    if lead == [] {
      assert lead + rest == rest;
    } else {
      assert (lead + rest)[1..] == lead[1..] + rest;
      TrimLeftBlank(lead[1..], rest);
    }
  }

  lemma {:induction false} TrimRightBlank(rest: Text, trail: Text)
    requires Blank(trail)
    ensures TrimRight(rest + trail) == TrimRight(rest)
  {
    if trail == [] {
      assert rest + trail == rest;
    } else {
      assert (rest + trail)[..|rest + trail| - 1] == rest + trail[..|trail| - 1];
      TrimRightBlank(rest, trail[..|trail| - 1]);
    }
  }

  lemma TrimAround(lead: Text, value: Text, trail: Text)
    requires Blank(lead) && Blank(trail) && Clean(value)
    ensures TrimRight(TrimLeft(lead + value + trail)) == value
  {
    assert lead + value + trail == lead + (value + trail);
    TrimLeftBlank(lead, value + trail);
    if value == [] {
      assert value + trail == trail == trail + [];
      TrimLeftBlank(trail, []);
    } else {
      TrimRightBlank(value, trail);
    }
  }

  lemma RenderedHeader(r: Request, h: Header)
    requires Sendable(h)
    ensures var line := RenderHeader(h);
            CR !in line && Find(line, COLON) == |h.name| < |line|
            && AddHeader(r, line, |h.name|) == r.(headers := r.headers[h.name := h.value])
  {
    var line := RenderHeader(h);
    assert line[..|h.name|] == h.name;
    assert line[|h.name| + 1..] == h.lead + h.value + h.trail;
    assert line[|h.name|] == COLON;
    TrimAround(h.lead, h.value, h.trail);
  }

  lemma {:induction false} RenderedHeaders(r: Request, headers: seq<Header>, tail: Text)
    requires forall i :: 0 <= i < |headers| ==> Sendable(headers[i])
    ensures Parse(ExpectHeaders, r, RenderHeaders(headers) + tail)
         == Result(true, GotAll, r.(headers := Collect(headers, r.headers)), tail)
    decreases headers
  {
    hide Sendable, RenderHeader, AddHeader, Find, FindCrlf;
    if headers == [] {
      LineEnds([], tail);
      assert RenderHeaders(headers) + tail == [] + [CR, LF] + tail;
    } else {
      var h, more := headers[0], RenderHeaders(headers[1..]) + tail;
      RenderedHeader(r, h);
      LineEnds(RenderHeader(h), more);
      assert RenderHeaders(headers) + tail == RenderHeader(h) + [CR, LF] + more;
      RenderedHeaders(r.(headers := r.headers[h.name := h.value]), headers[1..], tail);
    }
  }

  /** A line without a colon ends the headers, empty or not. */
  lemma NoColonEnds(r: Request, line: Text, tail: Text)
    requires CR !in line && COLON !in line
    ensures Parse(ExpectHeaders, r, line + [CR, LF] + tail) == Result(true, GotAll, r, tail)
  {
    hide AddHeader, FindCrlf;
    LineEnds(line, tail);
  }

  lemma ParseRendered(m: Method, target: Text, v: Version, headers: seq<Header>, tail: Text)
    requires !m.Invalid? && !v.Unknown? && SP !in target && CR !in target
    requires forall i :: 0 <= i < |headers| ==> Sendable(headers[i])
    ensures Parse(ExpectRequestLine, EMPTY_REQUEST, RenderLine(m, target, v) + [CR, LF] + (RenderHeaders(headers) + tail))
         == Result(true, GotAll, SetTarget(EMPTY_REQUEST.(verb := m), target).(version := v, headers := Collect(headers, map[])), tail)
  {
    hide RenderHeaders, RenderLine, RequestLine, MethodName, VersionName, Find, FindCrlf, Parse, Collect, Sendable;
    var line, more := RenderLine(m, target, v), RenderHeaders(headers) + tail;
    assert CR !in line by { LineIsOneLine(m, target, v); }
    LineEnds(line, more);
    RenderedLine(EMPTY_REQUEST, m, target, v);
    var r := SetTarget(EMPTY_REQUEST.(verb := m), target).(version := v);
    ParseTurn(ExpectRequestLine, EMPTY_REQUEST, line + [CR, LF] + more);
    RenderedHeaders(r, headers, tail);
  }

  lemma LineIsOneLine(m: Method, target: Text, v: Version)
    requires !m.Invalid? && !v.Unknown? && CR !in target
    ensures CR !in RenderLine(m, target, v)
  {
    hide MethodName, VersionName;
    NamesRoundTrip();
  }

  /** A message to send. */
  datatype Message = Message(verb: Method, path: Text, query: Text, version: Version, headers: seq<Header>)

  predicate Legal(m: Message) {
    && !m.verb.Invalid? && !m.version.Unknown? && IsTarget(m.path, m.query)
    && forall i :: 0 <= i < |m.headers| ==> Sendable(m.headers[i])
  }

  function Render(m: Message): Text
    requires Legal(m)
  {
    RenderLine(m.verb, m.path + m.query, m.version) + [CR, LF] + RenderHeaders(m.headers)
  }

  /** The request it is parsed into. */
  function Said(m: Message): Request {
    Request(m.verb, m.version, m.path, m.query, Collect(m.headers, map[]))
  }

  lemma RenderedParses(m: Message, tail: Text)
    requires Legal(m)
    ensures Parse(ExpectRequestLine, EMPTY_REQUEST, Render(m) + tail) == Result(true, GotAll, Said(m), tail)
  {
    hide Parse, RenderLine, RequestLine, RenderHeaders, SetTarget, Collect, Sendable, IsTarget;
    RenderedRequestLine(EMPTY_REQUEST, m.verb, m.path, m.query, m.version);
    ParseRendered(m.verb, m.path + m.query, m.version, m.headers, tail);
    TargetParts(EMPTY_REQUEST.(verb := m.verb), m.path, m.query);
    assert Render(m) + tail == RenderLine(m.verb, m.path + m.query, m.version) + [CR, LF] + (RenderHeaders(m.headers) + tail);
  }

  /** A message, however its bytes are cut and whatever follows, is parsed back into the
      request it says; what follows is left in the buffer. */
  lemma RoundTrip(m: Message, tail: Text, chunks: seq<Text>)
    requires Legal(m) && Concat(chunks) == Render(m) + tail
    ensures Feed(chunks) == Result(true, GotAll, Said(m), tail)
  {
    hide Render, Said, Legal, Feed, Parse, Concat;
    ChunksDoNotMatter(chunks);
    RenderedParses(m, tail);
  }

  lemma MethodPrefix(bytes: Text, m: Method)
    requires !m.Invalid? && MethodName(m) + [SP] <= bytes && FindCrlf(bytes) < |bytes|
    ensures var line := bytes[..FindCrlf(bytes)];
            Find(line, SP) < |line| && MethodOf(line[..Find(line, SP)]) == m
  {
    hide MethodOf, MethodName;
    NamesRoundTrip();
    var crlf, n := FindCrlf(bytes), |MethodName(m)|;
    assert forall k :: 0 <= k < n ==> bytes[k] == MethodName(m)[k];
    assert bytes[n] == SP;
    var line := bytes[..crlf];
    assert Find(line, SP) == n;
    assert line[..n] == MethodName(m);
  }

  /** `setMethod` asserts that no method was set before.  A refused request line leaves its
      bytes in the buffer, so the next call parses it again: the assertion then holds if and
      only if the line does not begin with a known method and a space. */
  lemma RetryAfterFailure(bytes: Text)
    requires !Parse(ExpectRequestLine, EMPTY_REQUEST, bytes).ok
    ensures var p := Parse(ExpectRequestLine, EMPTY_REQUEST, bytes);
            && p.state.ExpectRequestLine? && p.rest == bytes
            && (p.request.verb.Invalid? <==> forall m: Method :: !m.Invalid? ==> !(MethodName(m) + [SP] <= bytes))
  {
    hide MethodOf, MethodName, VersionOf, Find, FindCrlf;
    var turn := Inspect(ExpectRequestLine, EMPTY_REQUEST, bytes);
    if turn.Advance? {
      NeverBack(turn.request, bytes[turn.size..]);
    }
    assert turn.Fail?;
    var line := bytes[..FindCrlf(bytes)];
    var space := Find(line, SP);
    if !turn.request.verb.Invalid? {
      NamesAreUnique(line[..space]);
      var m := turn.request.verb;
      assert bytes[..space + 1] == MethodName(m) + [SP];
      assert MethodName(m) + [SP] <= bytes;
    }
    if m: Method :| !m.Invalid? && MethodName(m) + [SP] <= bytes {
      MethodPrefix(bytes, m);
    }
  }

  /** Such a line: a known method and a space, and nothing that makes a request line. */
  lemma RetryFails()
    ensures var p := Parse(ExpectRequestLine, EMPTY_REQUEST, Ascii("GET") + [SP] + [CR, LF]);
            !p.ok && p.state.ExpectRequestLine? && p.request.verb.Get?
  {
    hide Find, FindCrlf;
    var line := Ascii("GET") + [SP];
    LineEnds(line, []);
    assert line + [CR, LF] == line + [CR, LF] + [];
    SplitAtSpace(Ascii("GET"), []);
    assert line == Ascii("GET") + [SP] + [];
    assert RequestLine(EMPTY_REQUEST, line) == (false, EMPTY_REQUEST.(verb := Get)) by {
      assert Find([], SP) == 0;
    }
  }

  // ---- Several requests on one connection ----

  /** The requests a stream holds, one behind the other. */
  function Requests(state: State, r: Request, bytes: Text): seq<Request>
    requires state.ExpectRequestLine? || state.ExpectHeaders?
    decreases |bytes|
  {
    var p := Parse(state, r, bytes);
    if p.state == GotAll then [p.request] + Requests(ExpectRequestLine, EMPTY_REQUEST, p.rest) else []
  }

  /** A connection of the server: the verdict of the last call, the parser, the unread bytes,
      the requests answered and the number of refusals. */
  datatype Session = Session(ok: bool, state: State, request: Request, unread: Text, answered: seq<Request>, refusals: nat)

  const NEW_SESSION := Session(true, ExpectRequestLine, EMPTY_REQUEST, [], [], 0)

  /** The next call runs into the assertion of `setMethod`; nothing comes after that. */
  predicate Stuck(s: Session) {
    !s.ok && !s.request.verb.Invalid?
  }

  /** One call of `HttpServer::onMessage`: it parses once, sends a refusal, and answers a
      request that is complete. */
  function OnMessage(s: Session, chunk: Text): (t: Session)
    requires s.state.ExpectRequestLine? || s.state.ExpectHeaders?
    ensures t.state.ExpectRequestLine? || t.state.ExpectHeaders?
  {
    if Stuck(s) then s
    else
      var p := Parse(s.state, s.request, s.unread + chunk);
      if p.state == GotAll then Session(true, ExpectRequestLine, EMPTY_REQUEST, p.rest, s.answered + [p.request], s.refusals)
      else Session(p.ok, p.state, p.request, p.rest, s.answered, s.refusals + if p.ok then 0 else 1)
  }

  function Converse(chunks: seq<Text>): (s: Session)
    ensures s.state.ExpectRequestLine? || s.state.ExpectHeaders?
  {
    if chunks == [] then NEW_SESSION else OnMessage(Converse(chunks[..|chunks| - 1]), chunks[|chunks| - 1])
  }

  /** A call after a refusal parses the same line again and refuses it again. */
  lemma RefusedAgain(r: Request, bytes: Text, more: Text)
    requires !Parse(ExpectRequestLine, r, bytes).ok
    ensures var p := Parse(ExpectRequestLine, r, bytes);
            var again := Parse(ExpectRequestLine, p.request, p.rest + more);
            && p.state.ExpectRequestLine? && p.rest == bytes
            && !again.ok && again.state.ExpectRequestLine? && again.rest == bytes + more
            && again.request.verb == p.request.verb
  {
    hide RequestLine, Find, FindCrlf;
    var turn := Inspect(ExpectRequestLine, r, bytes);
    if turn.Advance? {
      NeverBack(turn.request, bytes[turn.size..]);
    }
    InspectAppend(ExpectRequestLine, turn.request, bytes, more);
    SameVerb(r, bytes[..FindCrlf(bytes)]);
  }

  lemma SameVerb(r: Request, line: Text)
    ensures var r1 := RequestLine(r, line).1;
            RequestLine(r1, line).1.verb == r1.verb && RequestLine(r1, line).0 == RequestLine(r, line).0
  {
    hide MethodOf, VersionOf, Find;
  }

  lemma RefusalHasCause(state: State, r: Request, bytes: Text)
    requires state.ExpectRequestLine? || state.ExpectHeaders?
    ensures !Parse(state, r, bytes).ok ==> state.ExpectRequestLine?
  {
    hide Parse;
    if state.ExpectHeaders? {
      NeverBack(r, bytes);
    }
  }

  /** After a refusal the bytes unread are refused, whatever comes behind them. */
  ghost predicate Sound(s: Session) {
    && (s.state.ExpectRequestLine? || s.state.ExpectHeaders?)
    && (!s.ok ==> s.state.ExpectRequestLine?
                  && forall more: Text :: var again := Parse(ExpectRequestLine, s.request, s.unread + more);
                       !again.ok && again.state.ExpectRequestLine? && again.rest == s.unread + more && again.request.verb == s.request.verb)
  }

  lemma CallKeepsSound(s: Session, chunk: Text)
    requires Sound(s)
    ensures Sound(OnMessage(s, chunk))
  {
    hide Parse;
    var bytes := s.unread + chunk;
    var p := Parse(s.state, s.request, bytes);
    if !Stuck(s) && !p.ok {
      RefusalHasCause(s.state, s.request, bytes);
      forall more: Text
        ensures var again := Parse(ExpectRequestLine, p.request, p.rest + more);
                && p.state.ExpectRequestLine?
                && !again.ok && again.state.ExpectRequestLine? && again.rest == p.rest + more && again.request.verb == p.request.verb
      {
        RefusedAgain(s.request, bytes, more);
      }
      assert p.state.ExpectRequestLine? by { RefusedAgain(s.request, bytes, []); }
    }
  }

  lemma {:induction false} ConverseSound(chunks: seq<Text>)
    ensures Sound(Converse(chunks))
  {
    if chunks != [] {
      hide OnMessage, Sound;
      ConverseSound(chunks[..|chunks| - 1]);
      CallKeepsSound(Converse(chunks[..|chunks| - 1]), chunks[|chunks| - 1]);
    }
  }

  /** After a refusal every call refuses again and answers nothing, or the next call is the
      last: it runs into the assertion. */
  lemma {:induction false} RefusedForGood(chunks: seq<Text>, more: seq<Text>)
    requires !Converse(chunks).ok
    ensures var s, t := Converse(chunks), Converse(chunks + more);
            && !t.ok && t.answered == s.answered && t.request.verb == s.request.verb
            && t.unread == s.unread + (if Stuck(s) then [] else Concat(more))
            && t.refusals == s.refusals + if Stuck(s) then 0 else |more|
    decreases |more|
  {
    hide Parse;
    var s := Converse(chunks);
    if more == [] {
      assert chunks + more == chunks && s.unread + [] == s.unread;
    } else {
      var front, last := more[..|more| - 1], more[|more| - 1];
      RefusedForGood(chunks, front);
      assert (chunks + more)[..|chunks + more| - 1] == chunks + front;
      var before := Converse(chunks + front);
      ConverseSound(chunks + front);
      assert Converse(chunks + more) == OnMessage(before, last);
      assert s.unread + (Concat(front) + last) == (s.unread + Concat(front)) + last;
    }
  }

  lemma RequestsAppend(state: State, r: Request, a: Text, b: Text)
    requires state.ExpectRequestLine? || state.ExpectHeaders?
    ensures var p := Parse(state, r, a);
            Requests(state, r, a + b) ==
              if p.state == GotAll then [p.request] + Requests(ExpectRequestLine, EMPTY_REQUEST, p.rest + b)
              else if p.ok then Requests(p.state, p.request, p.rest + b)
              else []
  {
    hide Parse;
    ParseAppend(state, r, a, b);
  }

  /** The requests answered, and those in the bytes unread with what comes next. */
  function Accounted(s: Session, more: Text): seq<Request>
    requires s.state.ExpectRequestLine? || s.state.ExpectHeaders?
  {
    s.answered + Requests(s.state, s.request, s.unread + more)
  }

  lemma RefusedHoldsNothing(s: Session, more: Text)
    requires Sound(s) && !s.ok
    ensures Requests(s.state, s.request, s.unread + more) == []
  {
    hide Parse;
  }

  lemma CallAccounts(s: Session, chunk: Text, more: Text)
    requires Sound(s)
    ensures Accounted(OnMessage(s, chunk), more) == Accounted(s, chunk + more)
  {
    hide Parse, Requests;
    var t := OnMessage(s, chunk);
    CallKeepsSound(s, chunk);
    hide Sound;
    assert s.unread + (chunk + more) == (s.unread + chunk) + more;
    RequestsAppend(s.state, s.request, s.unread + chunk, more);
    if !t.ok {
      RefusedHoldsNothing(t, more);
      if Stuck(s) {
        RefusedHoldsNothing(s, chunk + more);
      }
    } else if t.answered != s.answered {
      var p := Parse(s.state, s.request, s.unread + chunk);
      var rest := Requests(ExpectRequestLine, EMPTY_REQUEST, p.rest + more);
      assert s.answered + ([p.request] + rest) == (s.answered + [p.request]) + rest;
    }
  }

  /** Whatever comes after the chunks, the requests of the whole stream are those answered
      and those still to be read. */
  lemma {:induction false} AnsweredAndUnread(chunks: seq<Text>, more: Text)
    ensures Requests(ExpectRequestLine, EMPTY_REQUEST, Concat(chunks) + more) == Accounted(Converse(chunks), more)
  {
    hide Requests, OnMessage;
    if chunks == [] {
      assert Concat(chunks) + more == more == [] + more;
      assert Accounted(NEW_SESSION, more) == Requests(ExpectRequestLine, EMPTY_REQUEST, more);
    } else {
      hide Accounted, Sound;
      var front, last := chunks[..|chunks| - 1], chunks[|chunks| - 1];
      ConverseSound(front);
      CallAccounts(Converse(front), last, more);
      AnsweredAndUnread(front, last + more);
      assert (Concat(front) + last) + more == Concat(front) + (last + more);
    }
  }

  // ---- How many are answered ----

  /** The number of requests the chunks hold together. */
  function Held(chunks: seq<Text>): nat {
    |Requests(ExpectRequestLine, EMPTY_REQUEST, Concat(chunks))|
  }

  /** One more a call, while there are more. */
  function Served(chunks: seq<Text>): nat {
    if chunks == [] then 0
    else
      var before := Served(chunks[..|chunks| - 1]);
      if before < Held(chunks) then before + 1 else before
  }

  lemma CallAnswers(s: Session, chunk: Text)
    requires Sound(s)
    ensures |OnMessage(s, chunk).answered| == |s.answered| + if Requests(s.state, s.request, s.unread + chunk) == [] then 0 else 1
  {
    hide Parse;
    if Stuck(s) {
      RefusedHoldsNothing(s, chunk);
    }
  }

  lemma {:induction false} AnsweredIsServed(chunks: seq<Text>)
    ensures |Converse(chunks).answered| == Served(chunks)
  {
    if chunks != [] {
      hide Requests, OnMessage, Sound;
      var front, last := chunks[..|chunks| - 1], chunks[|chunks| - 1];
      AnsweredIsServed(front);
      ConverseSound(front);
      AnsweredAndUnread(front, last);
      CallAnswers(Converse(front), last);
    }
  }

  lemma NothingHeld()
    ensures Held([]) == 0
  {
    hide Parse;
    NothingToParse();
  }

  /** More bytes hold no fewer requests. */
  lemma {:induction false} RequestsGrow(state: State, r: Request, a: Text, b: Text)
    requires state.ExpectRequestLine? || state.ExpectHeaders?
    ensures Requests(state, r, a) <= Requests(state, r, a + b)
    decreases |a|
  {
    hide Parse;
    var p := Parse(state, r, a);
    RequestsAppend(state, r, a, b);
    if p.state == GotAll {
      RequestsGrow(ExpectRequestLine, EMPTY_REQUEST, p.rest, b);
    }
  }

  lemma HeldGrows(chunks: seq<Text>)
    requires chunks != []
    ensures Held(chunks[..|chunks| - 1]) <= Held(chunks)
  {
    hide Requests;
    RequestsGrow(ExpectRequestLine, EMPTY_REQUEST, Concat(chunks[..|chunks| - 1]), chunks[|chunks| - 1]);
  }

  /** What the first `j` chunks hold and one for each of the others is never exceeded. */
  lemma {:induction false} ServedAtMost(chunks: seq<Text>, j: nat)
    requires j <= |chunks|
    ensures Served(chunks) <= Held(chunks[..j]) + (|chunks| - j)
  {
    hide Held;
    if chunks == [] {
    } else if j == |chunks| {
      assert chunks[..j] == chunks;
      var front := chunks[..|chunks| - 1];
      ServedAtMost(front, |front|);
      assert front[..|front|] == front;
      HeldGrows(chunks);
    } else {
      var front := chunks[..|chunks| - 1];
      ServedAtMost(front, j);
      assert front[..j] == chunks[..j];
    }
  }

  lemma {:induction false} ServedReached(chunks: seq<Text>) returns (j: nat)
    ensures j <= |chunks| && Served(chunks) == Held(chunks[..j]) + (|chunks| - j)
  {
    hide Held;
    j := |chunks|;
    assert chunks[..j] == chunks;
    if chunks == [] {
      NothingHeld();
    } else {
      var front := chunks[..|chunks| - 1];
      if Served(front) < Held(chunks) {
        j := ServedReached(front);
        assert front[..j] == chunks[..j];
      } else {
        ServedAtMost(front, |front|);
        assert front[..|front|] == front;
        HeldGrows(chunks);
      }
    }
  }

  /** How many requests are answered, from the stream and its cut alone: the least, over all
      `j`, of what the first `j` chunks hold and one for each chunk after them. */
  lemma AnsweredCount(chunks: seq<Text>)
    ensures var n := |Converse(chunks).answered|;
            && (forall j :: 0 <= j <= |chunks| ==> n <= Held(chunks[..j]) + (|chunks| - j))
            && (exists j :: 0 <= j <= |chunks| && n == Held(chunks[..j]) + (|chunks| - j))
  {
    hide Held, Converse, Served;
    AnsweredIsServed(chunks);
    forall j | 0 <= j <= |chunks|
      ensures Served(chunks) <= Held(chunks[..j]) + (|chunks| - j)
    {
      ServedAtMost(chunks, j);
    }
    var j := ServedReached(chunks);
  }

  /** The requests of a stream are answered in order, one a call at most.  All of them are if
      and only if, for every `k`, the last `k` chunks complete at most `k` of them; otherwise
      the bytes unread hold a complete one. */
  lemma AnsweredIff(chunks: seq<Text>)
    ensures var s, all := Converse(chunks), Requests(ExpectRequestLine, EMPTY_REQUEST, Concat(chunks));
            && |s.answered| <= |chunks| && s.answered <= all
            && (s.answered == all <==> forall j :: 0 <= j <= |chunks| ==> Held(chunks) - Held(chunks[..j]) <= |chunks| - j)
            && (s.answered == all <==> Parse(s.state, s.request, s.unread).state != GotAll)
  {
    hide Parse, Converse;
    var s := Converse(chunks);
    AnsweredAndUnread(chunks, []);
    assert Concat(chunks) + [] == Concat(chunks) && s.unread + [] == s.unread;
    assert |Requests(s.state, s.request, s.unread)| == 0 <==> Parse(s.state, s.request, s.unread).state != GotAll;
    hide Requests;
    AnsweredCount(chunks);
    NothingHeld();
    assert chunks[..0] == [];
  }

  /** The bytes of messages, one behind the other, and the requests they are parsed into. */
  function RenderMany(messages: seq<Message>): Text
    requires forall i :: 0 <= i < |messages| ==> Legal(messages[i])
  {
    if messages == [] then [] else Render(messages[0]) + RenderMany(messages[1..])
  }

  function SaidMany(messages: seq<Message>): seq<Request> {
    if messages == [] then [] else [Said(messages[0])] + SaidMany(messages[1..])
  }

  /** A stream of messages holds exactly their requests, and those of what follows. */
  lemma {:induction false} StreamHolds(messages: seq<Message>, tail: Text)
    requires forall i :: 0 <= i < |messages| ==> Legal(messages[i])
    ensures Requests(ExpectRequestLine, EMPTY_REQUEST, RenderMany(messages) + tail)
         == SaidMany(messages) + Requests(ExpectRequestLine, EMPTY_REQUEST, tail)
    decreases |messages|
  {
    hide Parse, Render, Said, Legal;
    if messages == [] {
      assert RenderMany(messages) + tail == tail;
    } else {
      var more := RenderMany(messages[1..]) + tail;
      RenderedParses(messages[0], more);
      StreamHolds(messages[1..], tail);
      assert RenderMany(messages) + tail == Render(messages[0]) + more;
    }
  }

  /** Two messages that arrive at once: the second is not answered until more bytes come. */
  lemma PipelinedWaits(first: Message, second: Message)
    requires Legal(first) && Legal(second)
    ensures Converse([Render(first) + Render(second)]).answered == [Said(first)]
    ensures Converse([Render(first), Render(second)]).answered == [Said(first), Said(second)]
  {
    hide Parse, Render, Said, Legal;
    var a, b := Render(first), Render(second);
    RenderedParses(first, b);
    RenderedParses(first, []);
    RenderedParses(second, []);
    assert a + [] == a && b + [] == b && [] + (a + b) == a + b && [] + a == a && [] + b == b;
    var one, two, both: seq<Text> := [a], [a, b], [a + b];
    assert one[..0] == [] && two[..1] == one && both[..0] == [];
    assert Converse([]) == NEW_SESSION;
    assert Converse(one) == Session(true, ExpectRequestLine, EMPTY_REQUEST, [], [Said(first)], 0);
    assert Converse(two) == OnMessage(Converse(one), b);
    assert Converse(both) == OnMessage(NEW_SESSION, a + b);
  }
}

module HttpContexts {
  import opened Bytes
  import opened Buffers
  import opened HttpMessages

  class HttpRequest {
    var verb: Method
    var version: Version
    var path: Text
    var query: Text
    var receiveTime: int
    var headers: map<Text, Text>

    function Value(): Request
      reads this
    {
      Request(verb, version, path, query, headers)
    }

    constructor ()
      ensures Value() == EMPTY_REQUEST
    {
      verb, version, path, query, receiveTime, headers := Invalid, Unknown, [], [], 0, map[];
    }

    method SetMethod(token: Text) returns (ok: bool)
      requires verb == Invalid
      modifies this`verb
      ensures verb == MethodOf(token) && ok == !verb.Invalid?
    {
      if token == Ascii("GET") {
        verb := Get;
      } else if token == Ascii("POST") {
        verb := Post;
      } else if token == Ascii("HEAD") {
        verb := Head;
      } else if token == Ascii("PUT") {
        verb := Put;
      } else if token == Ascii("DELETE") {
        verb := Delete;
      } else {
        verb := Invalid;
      }
      ok := verb != Invalid;
    }

    method SetReceiveTime(t: int)
      modifies this`receiveTime
      ensures receiveTime == t && Value() == old(Value())
    {
      receiveTime := t;
    }

    /** Stores a header with the white space around its value removed. */
    method AddHeader(line: Text, colon: nat)
      requires colon < |line|
      modifies this`headers
      ensures Value() == HttpMessages.AddHeader(old(Value()), line, colon)
    {
      var field := line[..colon];
      var first := colon + 1;
      while first < |line| && IsSpace(line[first])
        invariant colon < first <= |line|
        invariant TrimLeft(line[first..]) == TrimLeft(line[colon + 1..])
      {
        assert line[first..][1..] == line[first + 1..];
        first := first + 1;
      }
      var value := line[first..];
      while value != [] && IsSpace(value[|value| - 1])
        invariant TrimRight(value) == TrimRight(line[first..])
      {
        value := value[..|value| - 1];
      }
      headers := headers[field := value];
    }
  }

  class HttpContext {
    var state: State
    var request: HttpRequest

    constructor ()
      ensures state == ExpectRequestLine && fresh(request) && request.Value() == EMPTY_REQUEST
    {
      state := ExpectRequestLine;
      request := new HttpRequest();
    }

    predicate GotAll()
      reads this
    {
      state == State.GotAll
    }

    method Reset()
      modifies this
      ensures state == ExpectRequestLine && fresh(request) && request.Value() == EMPTY_REQUEST
    {
      state := ExpectRequestLine;
      request := new HttpRequest();
    }

    method ProcessRequestLine(line: Text) returns (succeed: bool)
      requires request.verb == Invalid
      modifies request
      ensures (succeed, request.Value()) == RequestLine(old(request.Value()), line)
      ensures request.receiveTime == old(request.receiveTime)
    {
      hide MethodOf, Find, Ascii;
      succeed := false;
      var start := line;
      var space := Find(start, SP);
      if space != |start| {
        var known := request.SetMethod(start[..space]);
        if known {
          start := start[space + 1..];
          space := Find(start, SP);
          if space != |start| {
            var target := start[..space];
            var question := Find(target, QUESTION);
            if question != |target| {
              request.path := target[..question];
              request.query := target[question..];
            } else {
              request.path := target;
            }
            start := start[space + 1..];
            succeed := |start| == 8 && start[..7] == Ascii("HTTP/1.");
            if succeed {
              if start[7] == '1' as int {
                request.version := Http11;
              } else if start[7] == '0' as int {
                request.version := Http10;
              } else {
                succeed := false;
              }
            }
          }
        }
      }
    }

    /** Consumes the complete lines of the buffer up to the end of the headers. */
    method ParseRequest(buf: Buffer, receiveTime: int) returns (ok: bool)
      requires buf.Valid()
      requires state == ExpectRequestLine || state == ExpectHeaders
      requires state == ExpectRequestLine ==> request.verb == Invalid
      modifies this`state, request, buf`readerIndex, buf`writerIndex
      ensures buf.Valid()
      ensures Result(ok, state, request.Value(), buf.Contents()) == Parse(old(state), old(request.Value()), old(buf.Contents()))
      ensures request.receiveTime == if old(state) == ExpectRequestLine && state != ExpectRequestLine then receiveTime
                                     else old(request.receiveTime)
    {
      hide Parse, RequestLine, HttpMessages.AddHeader, Find, FindCrlf, Buffer.Contents, Buffer.Valid, SetTarget;
      ok := true;
      var hasMore := true;
      ghost var whole := Parse(state, request.Value(), buf.Contents());
      while hasMore
        invariant buf.Valid()
        invariant state == ExpectRequestLine ==> old(state) == ExpectRequestLine && (request.verb == Invalid || !hasMore)
        invariant request.receiveTime == if old(state) == ExpectRequestLine && state != ExpectRequestLine then receiveTime
                                         else old(request.receiveTime)
        invariant hasMore ==> ok && (state == ExpectRequestLine || state == ExpectHeaders)
        invariant whole == if hasMore then Parse(state, request.Value(), buf.Contents())
                           else Result(ok, state, request.Value(), buf.Contents())
        decreases hasMore, buf.ReadableBytes()
      {
        var bytes := buf.ToStringPiece();
        var crlf := FindCrlf(bytes);
        ParseTurn(state, request.Value(), bytes);
        if state == ExpectRequestLine {
          if crlf != |bytes| {
            ok := ProcessRequestLine(bytes[..crlf]);
            if ok {
              request.SetReceiveTime(receiveTime);
              buf.Retrieve(crlf + 2);
              state := ExpectHeaders;
            } else {
              hasMore := false;
            }
          } else {
            hasMore := false;
          }
        } else {
          if crlf != |bytes| {
            var colon := Find(bytes[..crlf], COLON);
            if colon != crlf {
              request.AddHeader(bytes[..crlf], colon);
            } else {
              state := State.GotAll;
              hasMore := false;
            }
            buf.Retrieve(crlf + 2);
          } else {
            hasMore := false;
          }
        }
      }
    }

    /** A connection of the server, whose bytes arrive in chunks: each is appended and parsed
        once, a refusal is counted, and a complete request is answered and the context reset.
        Where the assertion of `setMethod` would fail there is nothing more to do. */
    method Serve(buf: Buffer, chunks: seq<Text>, times: seq<int>)
        returns (ok: bool, answered: seq<Request>, refusals: nat)
      requires buf.Valid() && buf.Contents() == [] && |times| == |chunks|
      requires state == ExpectRequestLine && request.Value() == EMPTY_REQUEST
      modifies this, request, buf, buf.buffer
      ensures buf.Valid()
      ensures Session(ok, state, request.Value(), buf.Contents(), answered, refusals) == Converse(chunks)
    {
      hide Parse, FindCrlf, Buffer.Contents, Buffer.Valid;
      ok, answered, refusals := true, [], 0;
      for i := 0 to |chunks|
        invariant buf.Valid() && (buf.buffer == old(buf.buffer) || fresh(buf.buffer))
        invariant request == old(request) || fresh(request)
        invariant ok && state == ExpectRequestLine ==> request.verb == Invalid
        invariant Session(ok, state, request.Value(), buf.Contents(), answered, refusals) == Converse(chunks[..i])
      {
        assert chunks[..i + 1][..i] == chunks[..i];
        if ok || request.verb == Invalid {
          buf.Append(chunks[i]);
          WaitingChangesNothing(state, request.Value(), buf.Contents());
          ok := ParseRequest(buf, times[i]);
          if !ok {
            refusals := refusals + 1;
          }
          if GotAll() {
            answered := answered + [request.Value()];
            Reset();
          }
        }
      }
      assert chunks[..|chunks|] == chunks;
    }
  }
}
