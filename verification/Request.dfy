/** The HTTP request text: how the generator builds it, and what the load generator finds in it
    before sending it. */
module Request {
  import opened Prelude
  import opened Sequences
  import opened Decimal
  import opened Strings

  datatype Header = Header(name: string, value: string)

  const CRLF: string := "\r\n"

  // How many bytes a character takes in UTF-8.
  function Utf8Size(c: char): nat {
    var n := c as int;
    if n < 0x80 then 1 else if n < 0x800 then 2 else if n < 0x1_0000 then 3 else 4
  }

  // The text is handled by characters; its length is in bytes.
  function Utf8Length(s: string): (n: nat)
    ensures n >= |s|
  {
    if s == "" then 0 else Utf8Size(s[0]) + Utf8Length(s[1..])
  }

  predicate Ascii(s: string) { forall c :: c in s ==> c as int < 0x80 }

  // A length in characters is the length in bytes if and only if all of it is ASCII.
  lemma {:induction false} LengthIffAscii(s: string)
    ensures |s| == Utf8Length(s) <==> Ascii(s)
  {
    if s != "" {
      LengthIffAscii(s[1..]);
      assert s == [s[0]] + s[1..];
      assert s[0] in s && forall c :: c in s[1..] ==> c in s;
      assert forall c :: c in s ==> c == s[0] || c in s[1..];
    }
  }

  // ---------------------------------------------------------------- building

  function HeaderText(h: Header): string { h.name + ":" + (" " + h.value + CRLF) }

  function HeadersText(hs: seq<Header>): string {
    if hs == [] then "" else HeaderText(hs[0]) + HeadersText(hs[1..])
  }

  function RequestText(requestLine: string, hs: seq<Header>, body: string): string {
    requestLine + CRLF + HeadersText(hs) + (CRLF + body)
  }

  lemma {:induction false} HeadersAppend(hs: seq<Header>, h: Header)
    ensures HeadersText(hs + [h]) == HeadersText(hs) + HeaderText(h)
  {
    if hs == [] {
      assert hs + [h] == [h] && [h][1..] == [];
      assert HeaderText(h) + HeadersText([]) == HeaderText(h);
    } else {
      assert (hs + [h])[0] == hs[0] && (hs + [h])[1..] == hs[1..] + [h];
      HeadersAppend(hs[1..], h);
      Reassociate(HeaderText(hs[0]), HeadersText(hs[1..]), HeaderText(h));
    }
  }

  // A header set in a dictionary: in the place of the one of that name, or at the end.
  function Merge(hs: seq<Header>, h: Header): seq<Header> {
    if hs == [] then [h]
    else if hs[0].name == h.name then [h] + hs[1..]
    else [hs[0]] + Merge(hs[1..], h)
  }

  function MergeAll(hs: seq<Header>, more: seq<Header>): seq<Header>
    decreases |more|
  {
    if more == [] then hs else MergeAll(Merge(hs, more[0]), more[1..])
  }

  // The headers of the generator; consumes: the body refers to variables of the test.
  function OwnHeaders(netloc: string, keepAlive: bool, body: string, consumes: bool): seq<Header> {
    var host := [Header("Host", netloc)];
    var hs := if keepAlive then host else Merge(host, Header("Connection", "close"));
    if body == "" then hs else Merge(hs, LengthHeader(body, consumes))
  }

  // They give way to those of the scenario, and these to those of the request.
  function BuiltHeaders(netloc: string, keepAlive: bool, body: string, consumes: bool,
                        ofScenario: seq<Header>, ofRequest: seq<Header>): seq<Header>
  {
    MergeAll(MergeAll(OwnHeaders(netloc, keepAlive, body, consumes), ofScenario), ofRequest)
  }

  method BuildRequest(method_: string, path: string, netloc: string, keepAlive: bool, body: string, consumes: bool,
                      ofScenario: seq<Header>, ofRequest: seq<Header>) returns (payload: string)
    ensures payload == RequestText(method_ + " " + path + " HTTP/1.1",
                                   BuiltHeaders(netloc, keepAlive, body, consumes, ofScenario, ofRequest), body)
  {
    var start := method_ + " " + path + " HTTP/1.1" + CRLF;
    payload := start;
    var hs := [Header("Host", netloc)];
    if !keepAlive { hs := Merge(hs, Header("Connection", "close")); }
    if body != "" { hs := Merge(hs, LengthHeader(body, consumes)); }
    hs := MergeAll(MergeAll(hs, ofScenario), ofRequest);
    assert start + HeadersText(hs[..0]) == start;
    for i := 0 to |hs|
      invariant payload == start + HeadersText(hs[..i])
    {
      HeadersAppend(hs[..i], hs[i]);
      assert hs[..i] + [hs[i]] == hs[..i + 1];
      Reassociate(start, HeadersText(hs[..i]), HeaderText(hs[i]));
      payload := payload + (hs[i].name + ":" + (" " + hs[i].value + CRLF));
    }
    assert hs[..|hs|] == hs;
    payload := payload + (CRLF + body);
  }

  // The value of the header of a name.
  function ValueOf(hs: seq<Header>, name: string): Option<string> {
    if hs == [] then None else if hs[0].name == name then Some(hs[0].value) else ValueOf(hs[1..], name)
  }

  // The value a name is given last.
  function GivenLast(more: seq<Header>, name: string, before: Option<string>): Option<string>
    decreases |more|
  {
    if more == [] then before
    else GivenLast(more[1..], name, if more[0].name == name then Some(more[0].value) else before)
  }

  lemma {:induction false} MergeValue(hs: seq<Header>, h: Header, name: string)
    ensures ValueOf(Merge(hs, h), name) == if h.name == name then Some(h.value) else ValueOf(hs, name)
  {
    if hs != [] && hs[0].name != h.name { MergeValue(hs[1..], h, name); }
  }

  lemma {:induction false} MergeAllValue(hs: seq<Header>, more: seq<Header>, name: string)
    ensures ValueOf(MergeAll(hs, more), name) == GivenLast(more, name, ValueOf(hs, name))
    decreases |more|
  {
    if more != [] {
      MergeValue(hs, more[0], name);
      MergeAllValue(Merge(hs, more[0]), more[1..], name);
    }
  }

  // What the generator gives a name by itself.
  function OwnValue(netloc: string, keepAlive: bool, body: string, consumes: bool, name: string): Option<string> {
    if name == "Content-Length" && body != "" then Some(LengthHeader(body, consumes).value)
    else if name == "Connection" && !keepAlive then Some("close")
    else if name == "Host" then Some(netloc)
    else None
  }

  // A header of a built request has the value the request gives it, or else the scenario, or else the
  // generator.
  lemma BuiltValue(netloc: string, keepAlive: bool, body: string, consumes: bool,
                   ofScenario: seq<Header>, ofRequest: seq<Header>, name: string)
    ensures ValueOf(BuiltHeaders(netloc, keepAlive, body, consumes, ofScenario, ofRequest), name)
         == GivenLast(ofRequest, name, GivenLast(ofScenario, name, OwnValue(netloc, keepAlive, body, consumes, name)))
  {
    var host, close := [Header("Host", netloc)], Header("Connection", "close");
    var own := OwnHeaders(netloc, keepAlive, body, consumes);
    MergeValue(host, close, name);
    MergeValue(if keepAlive then host else Merge(host, close), LengthHeader(body, consumes), name);
    assert ValueOf(own, name) == OwnValue(netloc, keepAlive, body, consumes, name);
    MergeAllValue(own, ofScenario, name);
    MergeAllValue(MergeAll(own, ofScenario), ofRequest, name);
  }

  lemma OneHeaderText(h: Header)
    ensures HeadersText([h]) == h.name + ": " + h.value + "\r\n"
  {
    assert HeadersText([h]) == HeaderText(h) + HeadersText([]) == HeaderText(h);
    assert HeaderText(h) == h.name + ": " + h.value + "\r\n";
  }

  lemma OwnHeadersAlone(netloc: string, keepAlive: bool)
    ensures BuiltHeaders(netloc, keepAlive, "", false, [], [])
         == [Header("Host", netloc)] + if keepAlive then [] else [Header("Connection", "close")]
  {
    var host, close := Header("Host", netloc), Header("Connection", "close");
    assert Merge([host], close) == [host] + Merge([], close) by { assert [host][1..] == []; }
    assert [host] + [] == [host];
  }

  // A request without a body and headers of its own, written out.
  lemma PlainRequestText(start: string, netloc: string, keepAlive: bool)
    ensures RequestText(start, BuiltHeaders(netloc, keepAlive, "", false, [], []), "")
         == start + "\r\n" + ("Host: " + netloc + "\r\n" + if keepAlive then "" else "Connection: close\r\n") + "\r\n"
  {
    OwnHeadersAlone(netloc, keepAlive);
    OneHeaderText(Header("Host", netloc));
    OneHeaderText(Header("Connection", "close"));
    HeadersAppend([Header("Host", netloc)], Header("Connection", "close"));
    assert HeaderText(Header("Connection", "close")) + HeadersText([]) == HeaderText(Header("Connection", "close"));
    assert CRLF + "" == CRLF;
  }

  function NameOf(h: Header): string { h.name }

  function Names(hs: seq<Header>): seq<string> { Map(NameOf, hs) }

  // Names in the order in which they first come.
  function Joined(ns: seq<string>, more: seq<string>): seq<string>
    decreases |more|
  {
    if more == [] then ns else Joined(if more[0] in ns then ns else ns + [more[0]], more[1..])
  }

  lemma {:induction false} MergeNames(hs: seq<Header>, h: Header)
    ensures Names(Merge(hs, h)) == if h.name in Names(hs) then Names(hs) else Names(hs) + [h.name]
  {
    if hs != [] {
      var first, rest := hs[0], hs[1..];
      assert hs == [first] + rest;
      MapAppend(NameOf, [first], rest);
      if first.name == h.name {
        MapAppend(NameOf, [h], rest);
        assert Names(hs)[0] == h.name;
        assert Names([first]) == Names([h]);
      } else {
        MergeNames(rest, h);
        MapAppend(NameOf, [first], Merge(rest, h));
        assert h.name in Names(hs) <==> h.name in Names(rest);
        assert Names([first]) + (Names(rest) + [h.name]) == Names([first]) + Names(rest) + [h.name];
      }
    }
  }

  lemma {:induction false} MergeAllNames(hs: seq<Header>, more: seq<Header>)
    ensures Names(MergeAll(hs, more)) == Joined(Names(hs), Names(more))
    decreases |more|
  {
    if more != [] {
      MergeNames(hs, more[0]);
      assert Names(more)[0] == more[0].name && Names(more)[1..] == Names(more[1..]);
      MergeAllNames(Merge(hs, more[0]), more[1..]);
    }
  }

  predicate AllDifferent(ns: seq<string>) { forall i, j :: 0 <= i < j < |ns| ==> ns[i] != ns[j] }

  lemma {:induction false} JoinedDiffer(ns: seq<string>, more: seq<string>)
    requires AllDifferent(ns)
    ensures AllDifferent(Joined(ns, more))
    decreases |more|
  {
    if more != [] { JoinedDiffer(if more[0] in ns then ns else ns + [more[0]], more[1..]); }
  }

  // The names the generator has by itself.
  function OwnNames(keepAlive: bool, body: string): seq<string> {
    ["Host"] + (if keepAlive then [] else ["Connection"]) + if body == "" then [] else ["Content-Length"]
  }

  // A built request has every name once: first those of the generator, then the others of the scenario and of the
  // request, in the order in which they first come.
  lemma BuiltNames(netloc: string, keepAlive: bool, body: string, consumes: bool,
                   ofScenario: seq<Header>, ofRequest: seq<Header>)
    ensures var ns := Names(BuiltHeaders(netloc, keepAlive, body, consumes, ofScenario, ofRequest));
            ns == Joined(Joined(OwnNames(keepAlive, body), Names(ofScenario)), Names(ofRequest)) && AllDifferent(ns)
  {
    var own := OwnHeaders(netloc, keepAlive, body, consumes);
    var host, close := [Header("Host", netloc)], Header("Connection", "close");
    MergeNames(host, close);
    MergeNames(if keepAlive then host else Merge(host, close), LengthHeader(body, consumes));
    assert Names(own) == OwnNames(keepAlive, body);
    MergeAllNames(own, ofScenario);
    MergeAllNames(MergeAll(own, ofScenario), ofRequest);
    JoinedDiffer(OwnNames(keepAlive, body), Names(ofScenario));
    JoinedDiffer(Joined(OwnNames(keepAlive, body), Names(ofScenario)), Names(ofRequest));
  }

  // ---------------------------------------------------------------- what is found in a payload

  datatype Found = Found(host: string, close: bool, body: string)

  predicate NamesHost(name: string) { name == "Host" || name == "host" }

  predicate NamesConnection(name: string) { name == "Connection" || name == "connection" }

  // What one header line says.
  function Note(f: Found, name: string, value: string): Found {
    f.(host := if NamesHost(name) then TrimSpace(value) else f.host,
       close := if NamesConnection(name) then TrimSpace(value) == "close" else f.close)
  }

  // The header lines up to one that is too short to be a header; what follows is the body.
  function Scan(f: Found, payload: string): Found
    decreases |payload|
  {
    var (before, after, found) := Cut(payload, '\n');
    if !found || Utf8Length(before) < 2 then f.(body := after)
    else
      var (name, value, _) := Cut(before, ':');
      Scan(Note(f, name, value), after)
  }

  function Headers(payload: string): Found {
    Scan(Found("", false, ""), Cut(payload, '\n').1)
  }

  method GetHostAndConnHeaderValues(payload: string) returns (host: string, close: bool, bodyLen: nat)
    ensures var f := Headers(payload); host == f.host && close == f.close && bodyLen == Utf8Length(f.body)
  {
    host, close := "", false;
    var rest := Cut(payload, '\n').1;
    while true
      invariant Scan(Found(host, close, ""), rest) == Headers(payload)
      decreases |rest|
    {
      var (before, after, found) := Cut(rest, '\n');
      rest := after;
      if !found || Utf8Length(before) < 2 { break; }
      var (name, value, _) := Cut(before, ':');
      if NamesHost(name) { host := TrimSpace(value); }
      if NamesConnection(name) { close := TrimSpace(value) == "close"; }
    }
    bodyLen := Utf8Length(rest);
  }

  // ---------------------------------------------------------------- finding what was built

  predicate Sane(h: Header) { ':' !in h.name && '\n' !in h.name && '\n' !in h.value }

  // The value of the last header of a name, or of one of its spellings.
  function LastValue(hs: seq<Header>, names: set<string>): Option<string> {
    if hs == [] then None
    else
      var h := hs[|hs| - 1];
      if h.name in names then Some(h.value) else LastValue(hs[..|hs| - 1], names)
  }

  function Trimmed(v: Option<string>): string { if v.Some? then TrimSpace(v.value) else "" }

  function Said(hs: seq<Header>, body: string): Found {
    Found(Trimmed(LastValue(hs, {"Host", "host"})),
          Trimmed(LastValue(hs, {"Connection", "connection"})) == "close", body)
  }

  lemma TrimmedValue(v: string)
    ensures TrimSpace(" " + v + "\r") == TrimSpace(v)
  {
    assert (" " + v + "\r")[1..] == v + "\r";
    TrimEnds(v, '\r');
  }

  // A header line is taken off the front.
  lemma ScanHeader(f: Found, h: Header, rest: string)
    requires Sane(h)
    ensures Scan(f, HeaderText(h) + rest) == Scan(Note(f, h.name, h.value), rest)
  {
    var line := h.name + ":" + (" " + h.value + "\r");
    assert HeaderText(h) + rest == line + "\n" + rest;
    CutAfter(line, '\n', rest);
    CutAfter(h.name, ':', " " + h.value + "\r");
    TrimmedValue(h.value);
  }

  lemma ScanBlank(f: Found, body: string)
    ensures Scan(f, CRLF + body) == f.(body := body)
  {
    assert CRLF + body == "\r" + "\n" + body;
    CutAfter("\r", '\n', body);
    assert "\r"[1..] == "";
  }

  function NoteAll(f: Found, hs: seq<Header>): Found
    decreases |hs|
  {
    if hs == [] then f else NoteAll(Note(f, hs[0].name, hs[0].value), hs[1..])
  }

  lemma {:induction false} ScanAll(f: Found, hs: seq<Header>, body: string)
    requires forall h :: h in hs ==> Sane(h)
    ensures Scan(f, HeadersText(hs) + (CRLF + body)) == NoteAll(f, hs).(body := body)
    decreases |hs|
  {
    if hs == [] {
      assert "" + (CRLF + body) == CRLF + body;
      ScanBlank(f, body);
    } else {
      assert Sane(hs[0]);
      Reassociate(HeaderText(hs[0]), HeadersText(hs[1..]), CRLF + body);
      ScanHeader(f, hs[0], HeadersText(hs[1..]) + (CRLF + body));
      ScanAll(Note(f, hs[0].name, hs[0].value), hs[1..], body);
    }
  }

  lemma {:induction false} NoteSnoc(f: Found, hs: seq<Header>, h: Header)
    ensures NoteAll(f, hs + [h]) == Note(NoteAll(f, hs), h.name, h.value)
    decreases |hs|
  {
    if hs == [] {
      assert hs + [h] == [h] && [h][1..] == [];
    } else {
      assert (hs + [h])[0] == hs[0] && (hs + [h])[1..] == hs[1..] + [h];
      NoteSnoc(Note(f, hs[0].name, hs[0].value), hs[1..], h);
    }
  }

  lemma {:induction false} NotesAreLast(hs: seq<Header>)
    ensures NoteAll(Found("", false, ""), hs) == Said(hs, "")
  {
    if hs != [] {
      var front, h := hs[..|hs| - 1], hs[|hs| - 1];
      assert hs == front + [h];
      NotesAreLast(front);
      NoteSnoc(Found("", false, ""), front, h);
    }
  }

  // Whatever the headers, as long as their lines stay whole, and whatever the body: the load
  // generator finds the last host, whether the last connection header says to close, and exactly the
  // body.
  lemma BuiltIsFound(requestLine: string, hs: seq<Header>, body: string)
    requires '\n' !in requestLine && forall h :: h in hs ==> Sane(h)
    ensures Headers(RequestText(requestLine, hs, body)) == Said(hs, body)
  {
    assert RequestText(requestLine, hs, body) == requestLine + "\r" + "\n" + (HeadersText(hs) + (CRLF + body));
    CutAfter(requestLine + "\r", '\n', HeadersText(hs) + (CRLF + body));
    ScanAll(Found("", false, ""), hs, body);
    NotesAreLast(hs);
  }

  // ---------------------------------------------------------------- any payload text

  function Joint(lines: seq<string>): string {
    if lines == [] then "" else lines[0] + "\n" + Joint(lines[1..])
  }

  // What a line says as a header, with or without a colon.
  function LineHeader(line: string): Header { Header(Cut(line, ':').0, Cut(line, ':').1) }

  predicate IsLine(line: string) { '\n' !in line && Utf8Length(line) >= 2 }

  lemma {:induction false} ScanLines(f: Found, lines: seq<string>, rest: string)
    requires forall line :: line in lines ==> IsLine(line)
    ensures Scan(f, Joint(lines) + rest) == Scan(NoteAll(f, Map(LineHeader, lines)), rest)
    decreases |lines|
  {
    if lines == [] {
      assert "" + rest == rest;
    } else {
      var line, more := lines[0], Joint(lines[1..]);
      assert IsLine(line);
      assert Joint(lines) + rest == line + "\n" + (more + rest);
      CutAfter(line, '\n', more + rest);
      var h := LineHeader(line);
      ScanLines(Note(f, h.name, h.value), lines[1..], rest);
      assert Map(LineHeader, lines)[0] == h && Map(LineHeader, lines)[1..] == Map(LineHeader, lines[1..]);
    }
  }

  // In a payload of any lines of two bytes or more and a shorter one, the body is what follows that one, and host
  // and connection are those of the last lines before it with their names.
  lemma AnyTextIsFound(first: string, lines: seq<string>, short: string, body: string)
    requires '\n' !in first && (forall line :: line in lines ==> IsLine(line))
    requires '\n' !in short && Utf8Length(short) < 2
    ensures Headers(first + "\n" + (Joint(lines) + (short + "\n" + body))) == Said(Map(LineHeader, lines), body)
  {
    var hs, rest := Map(LineHeader, lines), short + "\n" + body;
    CutAfter(first, '\n', Joint(lines) + rest);
    ScanLines(Found("", false, ""), lines, rest);
    CutAfter(short, '\n', body);
    NotesAreLast(hs);
  }

  // Without such a line there is no body, and an unended line at the end says nothing.
  lemma NoBodyFound(first: string, lines: seq<string>, tail: string)
    requires '\n' !in first && '\n' !in tail && (forall line :: line in lines ==> IsLine(line))
    ensures Headers(first + "\n" + (Joint(lines) + tail)) == Said(Map(LineHeader, lines), "")
  {
    CutAfter(first, '\n', Joint(lines) + tail);
    ScanLines(Found("", false, ""), lines, tail);
    NothingToCut(tail, '\n');
    NotesAreLast(Map(LineHeader, lines));
  }

  // ---------------------------------------------------------------- the content length

  const PLACEHOLDER: string := "${:content-length:}"

  // The header for a body that is not empty.
  function LengthHeader(body: string, consumes: bool): Header {
    Header("Content-Length", if consumes then PLACEHOLDER else Itoa(|body|))
  }

  // What is sent for a payload; replaces: its record names variables.
  method Prepare(payload: string, replacing: bool) returns (sent: string, host: string, close: bool)
    ensures sent == Sent(payload, replacing)
    ensures host == Headers(payload).host && close == Headers(payload).close
  {
    var bodyLen;
    host, close, bodyLen := GetHostAndConnHeaderValues(payload);
    sent := payload;
    if replacing { sent := ReplaceAll(payload, PLACEHOLDER, Itoa(bodyLen)); }
  }

  function Sent(payload: string, replacing: bool): string {
    if replacing then ReplaceAll(payload, PLACEHOLDER, Itoa(Utf8Length(Headers(payload).body))) else payload
  }

  function Filled(hs: seq<Header>, n: string): (r: seq<Header>)
    ensures |r| == |hs|
    ensures forall i :: 0 <= i < |hs| ==> r[i] == Header(hs[i].name, ReplaceAll(hs[i].value, PLACEHOLDER, n))
  {
    if hs == [] then []
    else [Header(hs[0].name, ReplaceAll(hs[0].value, PLACEHOLDER, n))] + Filled(hs[1..], n)
  }

  lemma AcrossCRLF(a: string, b: string, what: string, n: string)
    requires what != "" && '\r' !in what && '\n' !in what
    ensures ReplaceAll(a + CRLF + b, what, n) == ReplaceAll(a, what, n) + CRLF + ReplaceAll(b, what, n)
  {
    assert a + CRLF + b == a + ['\r'] + (['\n'] + b);
    ReplaceAcross(a, '\r', ['\n'] + b, what, n);
    ReplaceAfter('\n', b, what, n);
  }

  // The placeholder has a colon before its last character, so it is in no name with its colon.
  lemma NotInName(name: string, n: string)
    requires ':' !in name
    ensures ReplaceAll(name + ":", PLACEHOLDER, n) == name + ":"
  {
    forall i: nat ensures !OccursAt(name + ":", PLACEHOLDER, i) {
      if i + |PLACEHOLDER| <= |name + ":"| {
        var part := (name + ":")[i..i + |PLACEHOLDER|];
        assert part[2] == name[i + 2];
        assert PLACEHOLDER[2] == ':';
      }
    }
    NothingToReplace(name + ":", PLACEHOLDER, n);
  }

  lemma HeaderLayout(h: Header, rest: string)
    ensures HeaderText(h) + rest == h.name + ":" + [' '] + (h.value + CRLF + rest)
  {}

  lemma FillHeader(h: Header, rest: string, n: string)
    requires ':' !in h.name
    ensures ReplaceAll(HeaderText(h) + rest, PLACEHOLDER, n)
         == HeaderText(Header(h.name, ReplaceAll(h.value, PLACEHOLDER, n))) + ReplaceAll(rest, PLACEHOLDER, n)
  {
    HeaderLayout(h, rest);
    ReplaceAcross(h.name + ":", ' ', h.value + CRLF + rest, PLACEHOLDER, n);
    NotInName(h.name, n);
    AcrossCRLF(h.value, rest, PLACEHOLDER, n);
    HeaderLayout(Header(h.name, ReplaceAll(h.value, PLACEHOLDER, n)), ReplaceAll(rest, PLACEHOLDER, n));
  }

  lemma {:induction false} FillHeaders(hs: seq<Header>, rest: string, n: string)
    requires forall h :: h in hs ==> Sane(h)
    ensures ReplaceAll(HeadersText(hs) + rest, PLACEHOLDER, n)
         == HeadersText(Filled(hs, n)) + ReplaceAll(rest, PLACEHOLDER, n)
    decreases |hs|
  {
    if hs == [] {
      assert "" + rest == rest;
      assert "" + ReplaceAll(rest, PLACEHOLDER, n) == ReplaceAll(rest, PLACEHOLDER, n);
    } else {
      assert Sane(hs[0]);
      Reassociate(HeaderText(hs[0]), HeadersText(hs[1..]), rest);
      FillHeader(hs[0], HeadersText(hs[1..]) + rest, n);
      FillHeaders(hs[1..], rest, n);
      Reassociate(HeaderText(Filled(hs, n)[0]), HeadersText(Filled(hs, n)[1..]), ReplaceAll(rest, PLACEHOLDER, n));
    }
  }

  // Substituting in the text is substituting in its parts.
  lemma FillRequest(requestLine: string, hs: seq<Header>, body: string, n: string)
    requires forall h :: h in hs ==> Sane(h)
    ensures ReplaceAll(RequestText(requestLine, hs, body), PLACEHOLDER, n)
         == RequestText(ReplaceAll(requestLine, PLACEHOLDER, n), Filled(hs, n), ReplaceAll(body, PLACEHOLDER, n))
  {
    var line, hs', body' := ReplaceAll(requestLine, PLACEHOLDER, n), Filled(hs, n), ReplaceAll(body, PLACEHOLDER, n);
    Reassociate(requestLine + CRLF, HeadersText(hs), CRLF + body);
    AcrossCRLF(requestLine, HeadersText(hs) + (CRLF + body), PLACEHOLDER, n);
    FillHeaders(hs, CRLF + body, n);
    assert CRLF + body == "" + CRLF + body;
    AcrossCRLF("", body, PLACEHOLDER, n);
    assert "" + CRLF + body' == CRLF + body';
    Reassociate(line + CRLF, HeadersText(hs'), CRLF + body');
  }

  // ---------------------------------------------------------------- a right content length

  lemma {:induction false} FilledKeeps(hs: seq<Header>, n: string)
    requires (forall h :: h in hs ==> Sane(h)) && forall c :: c in n ==> IsDigit(c) || c == '-'
    ensures forall h :: h in Filled(hs, n) ==> Sane(h)
  {
    forall i | 0 <= i < |hs| ensures Sane(Filled(hs, n)[i]) {
      assert Sane(hs[i]);
      NoNewline(hs[i].value, PLACEHOLDER, n);
    }
  }

  lemma {:induction false} NoNewline(s: string, what: string, n: string)
    requires what != "" && '\n' !in s && '\n' !in n
    ensures '\n' !in ReplaceAll(s, what, n)
    decreases |s|
  {
    if |s| >= |what| {
      if s[..|what|] == what { NoNewline(s[|what|..], what, n); } else { NoNewline(s[1..], what, n); }
    }
  }

  lemma ItoaInjective(m: nat, n: nat)
    ensures Itoa(m) == Itoa(n) <==> m == n
  {
    DigitsRoundTrip(m);
    DigitsRoundTrip(n);
  }

  // What is sent has the same structure as what was built, with the number of the bytes of its body
  // wherever the placeholder stood.
  lemma SentIsFound(requestLine: string, hs: seq<Header>, body: string)
    requires '\n' !in requestLine && forall h :: h in hs ==> Sane(h)
    ensures var n := Itoa(Utf8Length(body));
            var line, body' := ReplaceAll(requestLine, PLACEHOLDER, n), ReplaceAll(body, PLACEHOLDER, n);
            Sent(RequestText(requestLine, hs, body), true) == RequestText(line, Filled(hs, n), body')
            && Headers(Sent(RequestText(requestLine, hs, body), true)) == Said(Filled(hs, n), body')
  {
    var n := Itoa(Utf8Length(body));
    BuiltIsFound(requestLine, hs, body);
    FillRequest(requestLine, hs, body, n);
    FilledKeeps(hs, n);
    NoNewline(requestLine, PLACEHOLDER, n);
    BuiltIsFound(ReplaceAll(requestLine, PLACEHOLDER, n), Filled(hs, n), ReplaceAll(body, PLACEHOLDER, n));
  }

  lemma {:induction false} FilledValue(hs: seq<Header>, n: string, name: string)
    ensures ValueOf(Filled(hs, n), name)
         == var v := ValueOf(hs, name); if v == None then None else Some(ReplaceAll(v.value, PLACEHOLDER, n))
  {
    if hs != [] { FilledValue(hs[1..], n, name); }
  }

  lemma NumberStays(m: nat, n: string)
    ensures ReplaceAll(Itoa(m), PLACEHOLDER, n) == Itoa(m)
  {
    forall i: nat ensures !OccursAt(Itoa(m), PLACEHOLDER, i) {
      assert !IsDigit(PLACEHOLDER[0]);
      if i + |PLACEHOLDER| <= |Itoa(m)| { assert Itoa(m)[i] in Digits(m); }
    }
    NothingToReplace(Itoa(m), PLACEHOLDER, n);
  }

  // The content length in what is sent is the decimal number of the bytes of the body found there,
  // as section 6.2 of RFC 9112 requires, if and only if the body refers to variables of the test or
  // is all ASCII: otherwise the generator has counted characters. The record can have replacements
  // (replacing) without the body referring to variables (consumes): those of the path, of other
  // headers, of the address or of the label. Line, headers and body are those after the replacements.
  lemma ContentLengthRightIff(requestLine: string, hs: seq<Header>, body: string, consumes: bool, replacing: bool)
    requires '\n' !in requestLine && (forall h :: h in hs ==> Sane(h))
    requires ValueOf(hs, "Content-Length") == Some(LengthHeader(body, consumes).value)
    requires (consumes ==> replacing) && (replacing ==> Absent(body, PLACEHOLDER))
    ensures var sent := if replacing then Filled(hs, Itoa(Utf8Length(body))) else hs;
            Headers(Sent(RequestText(requestLine, hs, body), replacing)) == Said(sent, body)
            && (ValueOf(sent, "Content-Length") == Some(Itoa(Utf8Length(body))) <==> consumes || Ascii(body))
  {
    var n := Itoa(Utf8Length(body));
    if replacing {
      SentIsFound(requestLine, hs, body);
      NothingToReplace(body, PLACEHOLDER, n);
      FilledValue(hs, n, "Content-Length");
    } else {
      BuiltIsFound(requestLine, hs, body);
    }
    if consumes {
      ReplaceWhole(PLACEHOLDER, n);
    } else {
      NumberStays(|body|, n);
      LengthIffAscii(body);
      ItoaInjective(|body|, Utf8Length(body));
    }
  }
}
