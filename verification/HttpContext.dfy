/** The incremental HTTP request parser (muduo/net/http/HttpContext.cc, muduo/net/http/HttpRequest.h):
    request line and header fields as in sections 3.1.1 and 3.2 of RFC 7230. */
module Http {
  import opened Common
  import opened Buffers

  datatype Method = Invalid | Get | Post | Head | Put | Delete
  datatype Version = Unknown | Http10 | Http11

  /** A request without its receive time. */
  datatype Request = Request(verb: Method, version: Version, path: string, query: string, headers: map<string, string>)

  datatype ParseState = ExpectRequestLine | ExpectHeaders | ExpectBody | GotAll

  datatype Context = Context(state: ParseState, request: Request)

  /** What one parseRequest call leaves: its result, the context and the unconsumed bytes. */
  datatype Outcome = Outcome(ok: bool, context: Context, rest: string)

  const EMPTY_REQUEST := Request(Invalid, Unknown, "", "", map[])
  const START := Context(ExpectRequestLine, EMPTY_REQUEST)

  // ----- Specification -----

  function MethodOf(m: string): Method {
    if m == "GET" then Get
    else if m == "POST" then Post
    else if m == "HEAD" then Head
    else if m == "PUT" then Put
    else if m == "DELETE" then Delete
    else Invalid
  }

  function MethodString(m: Method): string {
    match m
    case Get => "GET"
    case Post => "POST"
    case Head => "HEAD"
    case Put => "PUT"
    case Delete => "DELETE"
    case Invalid => "UNKNOWN"
  }

  /** isspace in the "C" locale. */
  predicate IsSpace(c: char) {
    c == ' ' || 9 <= c as int <= 13
  }

  function TrimLeft(s: string): string {
    if s != "" && IsSpace(s[0]) then TrimLeft(s[1..]) else s
  }

  function TrimRight(s: string): string {
    if s != "" && IsSpace(s[|s| - 1]) then TrimRight(s[..|s| - 1]) else s
  }

  /** The request after processRequestLine, and whether the line was accepted. A rejected line may have
      set some fields already. */
  function RequestLine(r: Request, line: string): (bool, Request)
  {
    var space := Find(line, ' ', 0);
    if space == |line| then (false, r)
    else
      var r1 := r.(verb := MethodOf(line[..space]));
      if r1.verb == Invalid then (false, r1)
      else
        var start := space + 1;
        var space2 := Find(line, ' ', start);
        if space2 == |line| then (false, r1)
        else
          WithVersion(Target(r1, line[start..space2]), VersionOf(line[space2 + 1..]))
  }

  function VersionOf(v: string): Version {
    if |v| == 8 && v[..7] == "HTTP/1." && v[7] == '1' then Http11
    else if |v| == 8 && v[..7] == "HTTP/1." && v[7] == '0' then Http10
    else Unknown
  }

  function WithVersion(r: Request, version: Version): (bool, Request) {
    if version == Unknown then (false, r) else (true, r.(version := version))
  }

  /** The query keeps its question mark. */
  function Target(r: Request, target: string): Request
  {
    var question := Find(target, '?', 0);
    if question != |target| then r.(path := target[..question], query := target[question..])
    else r.(path := target)
  }

  function AddHeader(r: Request, line: string, colon: nat): Request
    requires colon < |line|
  {
    r.(headers := r.headers[line[..colon] := TrimRight(TrimLeft(line[colon + 1..]))])
  }

  predicate Expecting(c: Context) {
    c.state == ExpectRequestLine || c.state == ExpectHeaders
  }

  function Parse(c: Context, bytes: string): Outcome
    requires Expecting(c)
    decreases |bytes|
  {
    match FindCRLF(bytes, 0)
    case None => Outcome(true, c, bytes)
    case Some(crlf) =>
      var line, rest := bytes[..crlf], bytes[crlf + 2..];
      if c.state == ExpectRequestLine then
        var (ok, r) := RequestLine(c.request, line);
        if ok then Parse(Context(ExpectHeaders, r), rest) else Outcome(false, c.(request := r), bytes)
      else
        var colon := Find(line, ':', 0);
        if colon != |line| then Parse(c.(request := AddHeader(c.request, line, colon)), rest)
        else Outcome(true, c.(state := GotAll), rest)
  }

  // ----- Independence of chunking -----

  predicate Finished(o: Outcome) {
    !o.ok || o.context.state == GotAll
  }

  function Concat(chunks: seq<string>): string {
    if chunks == [] then "" else chunks[0] + Concat(chunks[1..])
  }

  /** Receive chunk after chunk, parse what is unread each time, stop at the first error or complete request. */
  function Feed(c: Context, unread: string, chunks: seq<string>): Outcome
    requires Expecting(c)
    decreases |chunks|
  {
    if chunks == [] then Outcome(true, c, unread)
    else
      var o := Parse(c, unread + chunks[0]);
      if Finished(o) then o.(rest := o.rest + Concat(chunks[1..]))
      else ParseKeepsExpecting(c, unread + chunks[0]); Feed(o.context, o.rest, chunks[1..])
  }

  lemma {:induction false} ParseKeepsExpecting(c: Context, bytes: string)
    requires Expecting(c)
    ensures Finished(Parse(c, bytes)) || Expecting(Parse(c, bytes).context)
    decreases |bytes|
  {
    hide RequestLine, AddHeader;
    match FindCRLF(bytes, 0)
    case None =>
    case Some(crlf) =>
      var line, rest := bytes[..crlf], bytes[crlf + 2..];
      if c.state == ExpectRequestLine {
        var (ok, r) := RequestLine(c.request, line);
        if ok { ParseKeepsExpecting(Context(ExpectHeaders, r), rest); }
      } else {
        var colon := Find(line, ':', 0);
        if colon != |line| { ParseKeepsExpecting(c.(request := AddHeader(c.request, line, colon)), rest); }
      }
  }

  /** A line end that is there stays the first one when more bytes arrive. */
  lemma FindCRLFExtends(a: string, b: string)
    ensures FindCRLF(a, 0).Some? ==> FindCRLF(a + b, 0) == FindCRLF(a, 0)
  {
    var i, j := FindCRLF(a, 0), FindCRLF(a + b, 0);
    if i.Some? {
      assert CRLFAt(a + b, i.value);
      if j.value < i.value { assert CRLFAt(a, j.value); }
    }
  }

  /** Parsing a then b: where parsing a stops for want of input, parsing resumes with what it left unread. */
  lemma {:induction false} ParseAppend(c: Context, a: string, b: string)
    requires Expecting(c)
    ensures var o := Parse(c, a);
            (Finished(o) ==> Parse(c, a + b) == o.(rest := o.rest + b)) &&
            (!Finished(o) ==> Expecting(o.context) && Parse(c, a + b) == Parse(o.context, o.rest + b))
    decreases |a|
  {
    hide RequestLine, AddHeader;
    FindCRLFExtends(a, b);
    match FindCRLF(a, 0)
    case None =>
    case Some(crlf) =>
      var line, rest := a[..crlf], a[crlf + 2..];
      assert (a + b)[..crlf] == line && (a + b)[crlf + 2..] == rest + b;
      if c.state == ExpectRequestLine {
        var (ok, r) := RequestLine(c.request, line);
        if ok { ParseAppend(Context(ExpectHeaders, r), rest, b); }
      } else {
        var colon := Find(line, ':', 0);
        if colon != |line| { ParseAppend(c.(request := AddHeader(c.request, line, colon)), rest, b); }
      }
  }

  lemma {:induction false} FeedIsParse(c: Context, unread: string, chunks: seq<string>)
    requires Expecting(c)
    requires Parse(c, unread) == Outcome(true, c, unread)
    ensures Feed(c, unread, chunks) == Parse(c, unread + Concat(chunks))
    decreases |chunks|
  {
    hide Parse;
    if chunks == [] {
      assert unread + "" == unread;
    } else {
      var a, b := unread + chunks[0], Concat(chunks[1..]);
      assert unread + Concat(chunks) == a + b;
      ParseAppend(c, a, b);
      var o := Parse(c, a);
      if !Finished(o) {
        ParseAppend(c, a, "");
        assert a + "" == a && o.rest + "" == o.rest;
        FeedIsParse(o.context, o.rest, chunks[1..]);
      }
    }
  }

  /** However a byte stream is cut, the result, the request and the unconsumed bytes are those of parsing it whole. */
  lemma ChunkingIsIrrelevant(chunks: seq<string>, chunks': seq<string>)
    requires Concat(chunks) == Concat(chunks')
    ensures Feed(START, "", chunks) == Feed(START, "", chunks') == Parse(START, Concat(chunks))
  {
    FeedIsParse(START, "", chunks);
    FeedIsParse(START, "", chunks');
    assert "" + Concat(chunks) == Concat(chunks);
  }

  // ----- Parsing undoes writing -----

  /** A header line as a client writes it: the value may be padded. */
  datatype Field = Field(name: string, lead: string, value: string, trail: string)

  predicate NoneOf(s: string, bad: string) {
    forall i :: 0 <= i < |s| ==> s[i] !in bad
  }

  predicate Blank(s: string) {
    forall i :: 0 <= i < |s| ==> s[i] == ' ' || s[i] == '\t'
  }

  predicate WellFormedField(f: Field) {
    && NoneOf(f.name, ":\r\n")
    && NoneOf(f.value, "\r\n")
    && (f.value != "" ==> !IsSpace(f.value[0]) && !IsSpace(f.value[|f.value| - 1]))
    && Blank(f.lead) && Blank(f.trail)
  }

  predicate WellFormedRequest(r: Request, fields: seq<Field>) {
    && r.verb != Invalid && r.version != Unknown
    && NoneOf(r.path, " ?\r\n")
    && NoneOf(r.query, " \r\n") && (r.query != "" ==> r.query[0] == '?')
    && (forall i :: 0 <= i < |fields| ==> WellFormedField(fields[i]))
  }

  function RenderLine(r: Request): string {
    MethodString(r.verb) + " " + r.path + r.query + " " + VersionString(r.version)
  }

  function RenderField(f: Field): string {
    f.name + ":" + f.lead + f.value + f.trail
  }

  function RenderFields(fields: seq<Field>): string {
    if fields == [] then "\r\n" else RenderField(fields[0]) + "\r\n" + RenderFields(fields[1..])
  }

  function Render(r: Request, fields: seq<Field>): string {
    RenderLine(r) + "\r\n" + RenderFields(fields)
  }

  /** Later fields replace earlier ones of the same name. */
  function HeaderMap(headers: map<string, string>, fields: seq<Field>): map<string, string>
    decreases |fields|
  {
    if fields == [] then headers else HeaderMap(headers[fields[0].name := fields[0].value], fields[1..])
  }

  /** The byte c occurs in s first at position i. */
  lemma FindFirst(s: string, c: char, from: nat, i: nat)
    requires from <= i < |s| && s[i] == c
    requires forall k :: from <= k < i ==> s[k] != c
    ensures Find(s, c, from) == i
  {
  }

  lemma FindNone(s: string, c: char)
    requires forall k :: 0 <= k < |s| ==> s[k] != c
    ensures Find(s, c, 0) == |s|
  {
  }

  lemma FindLineEnd(line: string, rest: string)
    requires NoneOf(line, "\r\n")
    ensures FindCRLF(line + "\r\n" + rest, 0) == Some(|line|)
    ensures (line + "\r\n" + rest)[..|line|] == line && (line + "\r\n" + rest)[|line| + 2..] == rest
  {
    var s := line + "\r\n" + rest;
    assert CRLFAt(s, |line|);
    assert forall k :: 0 <= k < |line| ==> s[k] == line[k];
  }

  lemma {:induction false} TrimLeftBlank(lead: string, s: string)
    requires Blank(lead)
    ensures TrimLeft(lead + s) == TrimLeft(s)
  {
    if lead == "" {
      assert lead + s == s;
    } else {
      assert (lead + s)[1..] == lead[1..] + s;
      TrimLeftBlank(lead[1..], s);
    }
  }

  lemma {:induction false} TrimRightBlank(s: string, trail: string)
    requires Blank(trail)
    ensures TrimRight(s + trail) == TrimRight(s)
  {
    if trail == "" {
      assert s + trail == s;
    } else {
      var t := s + trail;
      assert t[|t| - 1] == trail[|trail| - 1];
      assert t[..|t| - 1] == s + trail[..|trail| - 1];
      TrimRightBlank(s, trail[..|trail| - 1]);
    }
  }

  /** Padding is trimmed, and only padding. */
  lemma TrimPadding(f: Field)
    requires WellFormedField(f)
    ensures TrimRight(TrimLeft(f.lead + f.value + f.trail)) == f.value
  {
    hide NoneOf;
    assert f.lead + f.value + f.trail == f.lead + (f.value + f.trail);
    TrimLeftBlank(f.lead, f.value + f.trail);
    if f.value == "" {
      assert f.value + f.trail == f.trail + "";
      TrimLeftBlank(f.trail, "");
    } else {
      assert TrimLeft(f.value + f.trail) == f.value + f.trail;
      TrimRightBlank(f.value, f.trail);
    }
  }

  lemma ParseField(r: Request, f: Field)
    requires WellFormedField(f)
    ensures var line := RenderField(f); var colon := Find(line, ':', 0);
            NoneOf(line, "\r\n") && colon < |line| &&
            AddHeader(r, line, colon) == r.(headers := r.headers[f.name := f.value])
  {
    var line := RenderField(f);
    assert forall k :: 0 <= k < |f.name| ==> line[k] == f.name[k];
    FindFirst(line, ':', 0, |f.name|);
    assert line[..|f.name|] == f.name;
    assert line[|f.name| + 1..] == f.lead + f.value + f.trail;
    TrimPadding(f);
  }

  lemma {:induction false} ParseFields(r: Request, fields: seq<Field>, extra: string)
    requires forall i :: 0 <= i < |fields| ==> WellFormedField(fields[i])
    ensures Parse(Context(ExpectHeaders, r), RenderFields(fields) + extra)
         == Outcome(true, Context(GotAll, r.(headers := HeaderMap(r.headers, fields))), extra)
    decreases |fields|
  {
    hide RequestLine, WellFormedField, RenderField, AddHeader;
    var bytes := RenderFields(fields) + extra;
    if fields == [] {
      assert bytes == "" + "\r\n" + extra;
      FindLineEnd("", extra);
    } else {
      var line := RenderField(fields[0]);
      assert bytes == line + "\r\n" + (RenderFields(fields[1..]) + extra);
      ParseField(r, fields[0]);
      FindLineEnd(line, RenderFields(fields[1..]) + extra);
      ParseFields(r.(headers := r.headers[fields[0].name := fields[0].value]), fields[1..], extra);
    }
  }

  lemma ParseTarget(r: Request, path: string, query: string)
    requires NoneOf(path, " ?\r\n") && (query != "" ==> query[0] == '?')
    requires r.query == ""
    ensures Target(r, path + query) == r.(path := path, query := query)
  {
    var t := path + query;
    assert forall k :: 0 <= k < |path| ==> t[k] == path[k];
    if query == "" {
      assert t == path;
      FindNone(t, '?');
    } else {
      FindFirst(t, '?', 0, |path|);
      assert t[..|path|] == path && t[|path|..] == query;
    }
  }

  lemma LineParts(m: string, target: string, v: string)
    requires NoneOf(m, " ") && NoneOf(target, " ")
    ensures var line := m + " " + target + " " + v;
            var space, space2 := |m|, |m| + 1 + |target|;
            Find(line, ' ', 0) == space && line[..space] == m &&
            Find(line, ' ', space + 1) == space2 && line[space + 1..space2] == target && line[space2 + 1..] == v
  {
    var line := m + " " + target + " " + v;
    var space, space2 := |m|, |m| + 1 + |target|;
    assert forall k :: 0 <= k < |m| ==> line[k] == m[k];
    FindFirst(line, ' ', 0, space);
    assert forall k :: space + 1 <= k < space2 ==> line[k] == target[k - space - 1];
    FindFirst(line, ' ', space + 1, space2);
  }

  lemma MethodNames(m: Method)
    requires m != Invalid
    ensures MethodOf(MethodString(m)) == m && NoneOf(MethodString(m), " \r\n") && NoneOf(MethodString(m), " ")
  {
  }

  function VersionString(v: Version): string {
    if v == Http10 then "HTTP/1.0" else "HTTP/1.1"
  }

  lemma ParseRequestLine(r: Request)
    requires WellFormedRequest(r, [])
    ensures NoneOf(RenderLine(r), "\r\n")
    ensures RequestLine(EMPTY_REQUEST, RenderLine(r)) == (true, r.(headers := map[]))
  {
    hide MethodString, MethodOf, Target, RequestLine, VersionString;
    var m, target, v := MethodString(r.verb), r.path + r.query, VersionString(r.version);
    MethodNames(r.verb);
    TargetCharacters(r);
    VersionRoundTrip(r.version);
    assert RenderLine(r) == m + " " + target + " " + v;
    RequestLineOfParts(m, target, r.version);
    ParseTarget(EMPTY_REQUEST.(verb := r.verb), r.path, r.query);
    NoneOfParts(m, target, v);
  }

  lemma TargetCharacters(r: Request)
    requires WellFormedRequest(r, [])
    ensures NoneOf(r.path + r.query, " ") && NoneOf(r.path + r.query, "\r\n")
  {
  }

  lemma NoneOfParts(m: string, target: string, v: string)
    requires NoneOf(m, " \r\n") && NoneOf(target, "\r\n") && NoneOf(v, "\r\n")
    ensures NoneOf(m + " " + target + " " + v, "\r\n")
  {
  }

  lemma VersionRoundTrip(version: Version)
    requires version != Unknown
    ensures VersionOf(VersionString(version)) == version && NoneOf(VersionString(version), "\r\n")
  {
  }

  lemma RequestLineOfParts(m: string, target: string, version: Version)
    requires NoneOf(m, " ") && NoneOf(target, " ") && MethodOf(m) != Invalid && version != Unknown
    ensures RequestLine(EMPTY_REQUEST, m + " " + target + " " + VersionString(version))
         == (true, Target(EMPTY_REQUEST.(verb := MethodOf(m)), target).(version := version))
  {
    hide MethodOf, Target, VersionOf, VersionString;
    VersionRoundTrip(version);
    LineParts(m, target, VersionString(version));
  }

  /** Parsing the text of a well-formed request gives back that request and leaves what follows it unread. */
  lemma ParseRender(r: Request, fields: seq<Field>, extra: string)
    requires WellFormedRequest(r, fields) && r.headers == HeaderMap(map[], fields)
    ensures Parse(START, Render(r, fields) + extra) == Outcome(true, Context(GotAll, r), extra)
  {
    hide RequestLine, RenderLine;
    var line, rest := RenderLine(r), RenderFields(fields) + extra;
    assert Render(r, fields) + extra == line + "\r\n" + rest;
    ParseRequestLine(r);
    FindLineEnd(line, rest);
    ParseFields(r.(headers := map[]), fields, extra);
  }

  /** A header line ends the headers, leaving what follows unread, exactly if it has no colon; it need not be empty. */
  lemma ColonlessLineEndsHeaders(r: Request, line: string, rest: string)
    requires FindCRLF(line + "\r\n" + rest, 0) == Some(|line|)
    ensures Parse(Context(ExpectHeaders, r), line + "\r\n" + rest) == Outcome(true, Context(GotAll, r), rest) <==>
            ':' !in line
  {
    hide AddHeader;
    var bytes := line + "\r\n" + rest;
    assert bytes[..|line|] == line && bytes[|line| + 2..] == rest;
    var colon := Find(line, ':', 0);
    if colon != |line| {
      GotAllConsumes(Context(ExpectHeaders, AddHeader(r, line, colon)), rest);
    }
  }

  lemma {:induction false} GotAllConsumes(c: Context, bytes: string)
    requires Expecting(c)
    ensures Parse(c, bytes).context.state == GotAll ==> |Parse(c, bytes).rest| < |bytes|
    decreases |bytes|
  {
    hide RequestLine, AddHeader;
    match FindCRLF(bytes, 0)
    case None =>
    case Some(crlf) =>
      var line, rest := bytes[..crlf], bytes[crlf + 2..];
      if c.state == ExpectRequestLine {
        GotAllConsumes(Context(ExpectHeaders, RequestLine(c.request, line).1), rest);
      } else if Find(line, ':', 0) != |line| {
        GotAllConsumes(c.(request := AddHeader(c.request, line, Find(line, ':', 0))), rest);
      }
  }

  /** Such a line, and a header that is not seen because of it. */
  lemma HeaderAfterColonlessLineIsUnread(r: Request)
    ensures Parse(Context(ExpectHeaders, r), "Host example" + "\r\n" + "Accept: x\r\n\r\n")
         == Outcome(true, Context(GotAll, r), "Accept: x\r\n\r\n")
  {
    hide Parse;
    NoColonInLine();
    FindLineEnd("Host example", "Accept: x\r\n\r\n");
    ColonlessLineEndsHeaders(r, "Host example", "Accept: x\r\n\r\n");
  }

  lemma NoColonInLine()
    ensures ':' !in "Host example" && NoneOf("Host example", "\r\n")
  {
  }

  // ----- The loop of parseRequest -----

  /** The variables of the loop. */
  datatype Round = Round(ok: bool, hasMore: bool, context: Context, bytes: string)

  /** One pass through its body; in a state that the body does not handle, nothing changes. */
  function Iterate(l: Round): Round {
    var c := l.context;
    if !l.hasMore || !Expecting(c) then l
    else match FindCRLF(l.bytes, 0)
      case None => l.(hasMore := false)
      case Some(crlf) =>
        var line, rest := l.bytes[..crlf], l.bytes[crlf + 2..];
        if c.state == ExpectRequestLine then
          var (ok, r) := RequestLine(c.request, line);
          if ok then Round(true, true, Context(ExpectHeaders, r), rest)
          else Round(false, false, c.(request := r), l.bytes)
        else
          var colon := Find(line, ':', 0);
          if colon != |line| then l.(context := c.(request := AddHeader(c.request, line, colon)), bytes := rest)
          else l.(context := c.(state := GotAll), hasMore := false, bytes := rest)
  }

  function Iterations(l: Round, n: nat): Round
    decreases n
  {
    if n == 0 then l else Iterations(Iterate(l), n - 1)
  }

  /** A pass takes the parse one line further, or ends with it. */
  lemma IterateParses(l: Round)
    requires l.hasMore && l.ok && Expecting(l.context)
    ensures var l' := Iterate(l);
            (l'.hasMore ==>
               l'.ok && Expecting(l'.context) && |l'.bytes| < |l.bytes| &&
               Parse(l'.context, l'.bytes) == Parse(l.context, l.bytes)) &&
            (!l'.hasMore ==> Outcome(l'.ok, l'.context, l'.bytes) == Parse(l.context, l.bytes))
  {
    hide RequestLine, AddHeader;
  }

  lemma {:induction false} LoopParses(l: Round) returns (n: nat)
    requires l.hasMore && l.ok && Expecting(l.context)
    ensures var l' := Iterations(l, n); !l'.hasMore && Outcome(l'.ok, l'.context, l'.bytes) == Parse(l.context, l.bytes)
    decreases |l.bytes|
  {
    hide Iterate, Parse;
    IterateParses(l);
    if Iterate(l).hasMore {
      var k := LoopParses(Iterate(l));
      n := k + 1;
    } else {
      n := 1;
      assert Iterations(l, 1) == Iterations(Iterate(l), 0);
    }
  }

  lemma {:induction false} LoopStays(l: Round, n: nat)
    requires l.hasMore && !Expecting(l.context)
    ensures Iterations(l, n) == l
  {
    if n > 0 {
      LoopStays(l, n - 1);
    }
  }

  /** After a complete request the loop goes round and round, whatever bytes follow. */
  lemma ReenteredNeverReturns(r: Request, bytes: string, n: nat)
    ensures Iterations(Round(true, true, Context(GotAll, r), bytes), n).hasMore
  {
    hide Iterate;
    LoopStays(Round(true, true, Context(GotAll, r), bytes), n);
  }

  /** parseRequest returns exactly if it is entered while a request line or headers are expected: after a complete
      request it would go round for ever. */
  lemma LoopEndsExactly(c: Context, bytes: string)
    ensures (exists n: nat :: !Iterations(Round(true, true, c, bytes), n).hasMore) <==> Expecting(c)
  {
    var l := Round(true, true, c, bytes);
    hide Iterate;
    if Expecting(c) {
      var n := LoopParses(l);
      assert !Iterations(l, n).hasMore;
    } else {
      forall n: nat
        ensures Iterations(l, n).hasMore
      {
        LoopStays(l, n);
      }
    }
  }

  // ----- The request line -----

  /** The parts of a request line: method, request target and version, with one space between them. */
  predicate IsLine(line: string, m: string, t: string, v: string) {
    && line == m + " " + t + " " + v
    && (m == "GET" || m == "POST" || m == "HEAD" || m == "PUT" || m == "DELETE")
    && ' ' !in t
    && (v == "HTTP/1.0" || v == "HTTP/1.1")
  }

  ghost predicate IsRequestLine(line: string) {
    exists m, t, v :: IsLine(line, m, t, v)
  }

  lemma VersionExactly(v: string)
    ensures VersionOf(v) == if v == "HTTP/1.0" then Http10 else if v == "HTTP/1.1" then Http11 else Unknown
  {
    if |v| == 8 && v[..7] == "HTTP/1." {
      assert v == v[..7] + [v[7]];
    }
  }

  lemma MethodSpaces(m: string)
    requires m == "GET" || m == "POST" || m == "HEAD" || m == "PUT" || m == "DELETE"
    ensures NoneOf(m, " ") && MethodOf(m) != Invalid
  {
  }

  /** A line in three parts is taken apart as it was put together. */
  lemma PartsOfLine(r: Request, m: string, t: string, v: string)
    requires NoneOf(m, " ") && NoneOf(t, " ") && MethodOf(m) != Invalid
    ensures RequestLine(r, m + " " + t + " " + v) == WithVersion(Target(r.(verb := MethodOf(m)), t), VersionOf(v))
  {
    hide MethodOf, Target, VersionOf, WithVersion;
    LineParts(m, t, v);
  }

  /** A line is accepted if and only if it is one of the five methods, a target without spaces and one of the two
      versions, with one space between them. */
  lemma RequestLineExactly(r: Request, line: string)
    ensures RequestLine(r, line).0 <==> IsRequestLine(line)
  {
    if m, t, v :| IsLine(line, m, t, v) {
      MethodSpaces(m);
      VersionExactly(v);
      hide MethodOf, Target, VersionOf, RequestLine;
      PartsOfLine(r, m, t, v);
    } else if RequestLine(r, line).0 {
      AcceptedLine(r, line);
    }
  }

  lemma AcceptedParts(r: Request, line: string) returns (m: string, t: string, v: string)
    requires RequestLine(r, line).0
    ensures line == m + " " + t + " " + v && ' ' !in t && MethodOf(m) != Invalid && VersionOf(v) != Unknown
  {
    hide Target, MethodOf, VersionOf;
    var space := Find(line, ' ', 0);
    var space2 := Find(line, ' ', space + 1);
    m, t, v := line[..space], line[space + 1..space2], line[space2 + 1..];
    assert line == m + " " + t + " " + v;
  }

  lemma AcceptedLine(r: Request, line: string)
    requires RequestLine(r, line).0
    ensures IsRequestLine(line)
  {
    hide RequestLine;
    var m, t, v := AcceptedParts(r, line);
    VersionExactly(v);
    hide VersionOf;
    assert IsLine(line, m, t, v);
  }

  // ----- The parser objects -----

  class HttpRequest {
    var verb: Method
    var version: Version
    var path: string
    var query: string
    var receiveTime: int
    var headers: map<string, string>

    ghost function View(): Request
      reads this
    {
      Request(verb, version, path, query, headers)
    }

    constructor ()
      ensures View() == EMPTY_REQUEST && receiveTime == 0
    {
      verb, version, path, query, receiveTime, headers := Invalid, Unknown, "", "", 0, map[];
    }

    method SetMethod(m: string) returns (ok: bool)
      requires verb == Invalid
      modifies this
      ensures View() == old(View()).(verb := MethodOf(m)) && receiveTime == old(receiveTime)
      ensures ok <==> m in {"GET", "POST", "HEAD", "PUT", "DELETE"}
      ensures ok <==> verb != Invalid
    {
      if m == "GET" {
        verb := Get;
      } else if m == "POST" {
        verb := Post;
      } else if m == "HEAD" {
        verb := Head;
      } else if m == "PUT" {
        verb := Put;
      } else if m == "DELETE" {
        verb := Delete;
      } else {
        verb := Invalid;
      }
      ok := verb != Invalid;
    }

    /** Path and query, as processRequestLine sets them. */
    method SetTarget(target: string)
      modifies this
      ensures View() == Target(old(View()), target) && receiveTime == old(receiveTime)
    {
      var question := Find(target, '?', 0);
      if question != |target| {
        path := target[..question];
        query := target[question..];
      } else {
        path := target;
      }
    }

    method SetVersionOf(v: string) returns (succeed: bool)
      modifies this
      ensures (succeed, View()) == WithVersion(old(View()), VersionOf(v)) && receiveTime == old(receiveTime)
      ensures succeed <==> v == "HTTP/1.0" || v == "HTTP/1.1"
      ensures version == if v == "HTTP/1.0" then Http10 else if v == "HTTP/1.1" then Http11 else old(version)
    {
      VersionExactly(v);
      succeed := |v| == 8 && v[..7] == "HTTP/1.";
      if succeed {
        if v[7] == '1' {
          version := Http11;
        } else if v[7] == '0' {
          version := Http10;
        } else {
          succeed := false;
        }
      }
    }

    /** A header line and the position of its first colon. */
    method AddHeaderLine(line: string, colon: nat)
      requires colon < |line|
      modifies this
      ensures View() == AddHeader(old(View()), line, colon) && receiveTime == old(receiveTime)
    {
      var field := line[..colon];
      var start := colon + 1;
      while start < |line| && IsSpace(line[start])
        invariant colon < start <= |line|
        invariant TrimLeft(line[start..]) == TrimLeft(line[colon + 1..])
      {
        assert line[start..][1..] == line[start + 1..];
        start := start + 1;
      }
      var value := line[start..];
      assert TrimLeft(value) == value;
      while value != "" && IsSpace(value[|value| - 1])
        invariant TrimRight(value) == TrimRight(line[start..])
        decreases |value|
      {
        value := value[..|value| - 1];
      }
      headers := headers[field := value];
    }
  }

  class HttpContext {
    var state: ParseState
    const request: HttpRequest

    ghost function View(): Context
      reads this, request
    {
      Context(state, request.View())
    }

    constructor ()
      ensures View() == START && fresh(request)
    {
      state := ExpectRequestLine;
      request := new HttpRequest();
    }

    /** Accepts exactly the request lines of the grammar. */
    method ProcessRequestLine(line: string) returns (succeed: bool)
      requires request.verb == Invalid
      modifies request
      ensures (succeed, request.View()) == RequestLine(old(request.View()), line)
      ensures succeed <==> IsRequestLine(line)
      ensures request.receiveTime == old(request.receiveTime)
    {
      RequestLineExactly(request.View(), line);
      hide IsRequestLine;
      hide MethodOf, Target, VersionOf;
      succeed := false;
      var start := 0;
      var space := Find(line, ' ', start);
      if space != |line| {
        var known := request.SetMethod(line[start..space]);
        if known {
          start := space + 1;
          space := Find(line, ' ', start);
          if space != |line| {
            request.SetTarget(line[start..space]);
            start := space + 1;
            succeed := request.SetVersionOf(line[start..]);
          }
        }
      }
    }

    /** The first branch of the loop body, with a complete line in the buffer. */
    method TakeRequestLine(buf: Buffer, end: nat, receiveTime: int) returns (ok: bool)
      requires buf.Valid() && state == ExpectRequestLine && request.verb == Invalid
      requires FindCRLF(buf.Readable(), 0) == Some(end)
      modifies this, request, buf
      ensures buf.Valid()
      ensures Round(ok, ok, View(), buf.Readable()) == Iterate(Round(true, true, old(View()), old(buf.Readable())))
      ensures request.receiveTime == if ok then receiveTime else old(request.receiveTime)
    {
      hide RequestLine;
      var bytes := buf.Peek();
      ok := ProcessRequestLine(bytes[..end]);
      if ok {
        request.receiveTime := receiveTime;
        buf.Retrieve(end + 2);
        state := ExpectHeaders;
      }
    }

    /** The second branch, likewise. */
    method TakeHeaderLine(buf: Buffer, end: nat) returns (hasMore: bool)
      requires buf.Valid() && state == ExpectHeaders && FindCRLF(buf.Readable(), 0) == Some(end)
      modifies this, request, buf
      ensures buf.Valid() && request.receiveTime == old(request.receiveTime)
      ensures Round(true, hasMore, View(), buf.Readable()) ==
              Iterate(Round(true, true, old(View()), old(buf.Readable())))
    {
      hide AddHeader;
      hasMore := true;
      var bytes := buf.Peek();
      var line := bytes[..end];
      var colon := Find(line, ':', 0);
      if colon != |line| {
        request.AddHeaderLine(line, colon);
      } else {
        state := GotAll;
        hasMore := false;
      }
      buf.Retrieve(end + 2);
    }

    /** Consumes complete lines from the buffer. Entered in any other state, the source would loop without end; see
        LoopEndsExactly. */
    method ParseRequest(buf: Buffer, receiveTime: int) returns (ok: bool)
      requires buf.Valid() && Expecting(View())
      requires state == ExpectRequestLine ==> request.verb == Invalid
      modifies this, request, buf
      ensures buf.Valid()
      ensures Outcome(ok, View(), buf.Readable()) == Parse(old(View()), old(buf.Readable()))
      ensures request.receiveTime ==
              if old(state) == ExpectRequestLine && state != ExpectRequestLine then receiveTime
              else old(request.receiveTime)
    {
      hide Parse, Iterate;
      ok := true;
      var hasMore := true;
      while hasMore
        invariant buf.Valid()
        invariant hasMore ==> ok && Expecting(View()) && (state == ExpectRequestLine ==> request.verb == Invalid)
        invariant hasMore ==> Parse(View(), buf.Readable()) == Parse(old(View()), old(buf.Readable()))
        invariant !hasMore ==> Outcome(ok, View(), buf.Readable()) == Parse(old(View()), old(buf.Readable()))
        invariant state == ExpectRequestLine ==> old(state) == ExpectRequestLine
        invariant request.receiveTime ==
                  if old(state) == ExpectRequestLine && state != ExpectRequestLine then receiveTime
                  else old(request.receiveTime)
        decreases hasMore, |buf.Readable()|
      {
        ghost var l := Round(true, true, View(), buf.Readable());
        IterateParses(l);
        IterateStates(l);
        var crlf := buf.FindCRLFFrom(0);
        match crlf
        case Some(end) =>
          if state == ExpectRequestLine {
            ok := TakeRequestLine(buf, end, receiveTime);
            hasMore := ok;
          } else {
            hasMore := TakeHeaderLine(buf, end);
          }
        case None =>
          hasMore := false;
      }
    }
  }

  /** A complete line leads out of the first state or ends the loop; an incomplete one ends it. */
  lemma IterateStates(l: Round)
    requires l.hasMore && l.ok && Expecting(l.context)
    ensures var l' := Iterate(l);
            (FindCRLF(l.bytes, 0).None? ==> l' == l.(hasMore := false)) &&
            (l'.hasMore ==> l'.context.state == ExpectHeaders) &&
            (l'.context.state == ExpectRequestLine ==>
              l.context.state == ExpectRequestLine && (l'.ok ==> !l'.hasMore)) &&
            (FindCRLF(l.bytes, 0).Some? && l.context.state == ExpectRequestLine ==>
              (l'.ok <==> l'.context.state != ExpectRequestLine))
  {
    hide RequestLine, AddHeader;
  }
}
