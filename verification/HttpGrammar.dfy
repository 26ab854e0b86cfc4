/** What the parser accepts, told by the grammar of sections 3.1.1 and 3.2 of RFC 7230 as far as muduo/net/http
    implements it, and what it makes of what it accepts. */
module HttpGrammar {
  import opened Common
  import opened Buffers
  import opened Http

  /** The target, cut at its first question mark, which stays with the query. */
  predicate IsTarget(before: Request, t: string, after: Request) {
    if '?' in t then t == after.path + after.query && '?' !in after.path && after.query != "" && after.query[0] == '?'
    else after.path == t && after.query == before.query
  }

  /** What an accepted line sets. */
  lemma RequestLineSets(r: Request, line: string, m: string, t: string, v: string)
    requires IsLine(line, m, t, v)
    ensures var r' := RequestLine(r, line).1;
            && (r'.verb == Get <==> m == "GET") && (r'.verb == Post <==> m == "POST")
            && (r'.verb == Head <==> m == "HEAD") && (r'.verb == Put <==> m == "PUT")
            && (r'.verb == Delete <==> m == "DELETE")
            && (r'.version == Http10 <==> v == "HTTP/1.0") && (r'.version == Http11 <==> v == "HTTP/1.1")
            && IsTarget(r, t, r') && r'.headers == r.headers
  {
    MethodSpaces(m);
    VersionExactly(v);
    PartsOfLine(r, m, t, v);
    TargetExactly(r.(verb := MethodOf(m)), t);
    hide Target, VersionOf, RequestLine;
  }

  lemma TargetExactly(r: Request, t: string)
    ensures IsTarget(r, t, Target(r, t))
    ensures Target(r, t).verb == r.verb && Target(r, t).headers == r.headers && Target(r, t).version == r.version
  {
    var question := Find(t, '?', 0);
    if question != |t| {
      assert t == t[..question] + t[question..];
    }
  }

  // ----- Header lines -----

  /** The six characters that isspace accepts. */
  predicate White(c: char) {
    c == ' ' || c == '\t' || c == '\n' || c as int == 11 || c as int == 12 || c == '\r'
  }

  predicate AllWhite(s: string) {
    forall i :: 0 <= i < |s| ==> White(s[i])
  }

  /** The text without the white space around it. */
  ghost predicate IsStripped(text: string, value: string) {
    && (value == "" || (!White(value[0]) && !White(value[|value| - 1])))
    && exists lead, trail :: AllWhite(lead) && AllWhite(trail) && text == lead + value + trail
  }

  lemma {:induction false} TrimLeftExactly(s: string) returns (lead: string)
    ensures AllWhite(lead) && s == lead + TrimLeft(s)
    ensures TrimLeft(s) == "" || !White(TrimLeft(s)[0])
  {
    if s != "" && IsSpace(s[0]) {
      var more := TrimLeftExactly(s[1..]);
      lead := [s[0]] + more;
    } else {
      lead := "";
    }
  }

  lemma {:induction false} TrimRightExactly(s: string) returns (trail: string)
    ensures AllWhite(trail) && s == TrimRight(s) + trail
    ensures TrimRight(s) == "" || (!White(TrimRight(s)[|TrimRight(s)| - 1]) && TrimRight(s)[0] == s[0])
  {
    if s != "" && IsSpace(s[|s| - 1]) {
      var more := TrimRightExactly(s[..|s| - 1]);
      trail := more + [s[|s| - 1]];
      assert s == s[..|s| - 1] + [s[|s| - 1]];
    } else {
      trail := "";
    }
  }

  lemma TrimExactly(text: string)
    ensures IsStripped(text, TrimRight(TrimLeft(text)))
  {
    var lead := TrimLeftExactly(text);
    var trail := TrimRightExactly(TrimLeft(text));
    assert text == lead + TrimRight(TrimLeft(text)) + trail;
  }

  /** A header line maps what comes before its first colon to what comes after, stripped; no other header changes. */
  lemma HeaderLineExactly(r: Request, line: string, name: string, text: string)
    requires line == name + ":" + text && ':' !in name
    ensures Find(line, ':', 0) == |name|
    ensures exists value :: IsStripped(text, value) &&
              AddHeader(r, line, |name|) == r.(headers := r.headers[name := value])
  {
    FindFirst(line, ':', 0, |name|);
    TrimExactly(text);
    assert line[..|name|] == name && line[|name| + 1..] == text;
  }

  // ----- Parsing -----

  /** The first complete line ends at k. */
  predicate FirstLineEnds(bytes: string, k: nat) {
    CRLFAt(bytes, k) && forall j :: 0 <= j < k ==> !CRLFAt(bytes, j)
  }

  lemma {:induction false} HeadersNeverFail(c: Context, bytes: string)
    requires c.state == ExpectHeaders
    ensures Parse(c, bytes).ok
    decreases |bytes|
  {
    hide RequestLine, AddHeader;
    match FindCRLF(bytes, 0)
    case None =>
    case Some(k) =>
      var line, rest := bytes[..k], bytes[k + 2..];
      if Find(line, ':', 0) != |line| {
        HeadersNeverFail(c.(request := AddHeader(c.request, line, Find(line, ':', 0))), rest);
      }
  }

  lemma FirstLineDecides(c: Context, bytes: string, k: nat)
    requires c.state == ExpectRequestLine && FindCRLF(bytes, 0) == Some(k)
    ensures Parse(c, bytes).ok <==> RequestLine(c.request, bytes[..k]).0
  {
    hide RequestLine;
    var (ok, r) := RequestLine(c.request, bytes[..k]);
    if ok {
      HeadersNeverFail(Context(ExpectHeaders, r), bytes[k + 2..]);
    }
  }

  /** Parsing fails if and only if there is a first complete line and it is not a request line. */
  lemma ParseFailsExactly(c: Context, bytes: string)
    requires c.state == ExpectRequestLine
    ensures !Parse(c, bytes).ok <==> exists k: nat :: FirstLineEnds(bytes, k) && !IsRequestLine(bytes[..k])
  {
    var end := FindCRLF(bytes, 0);
    if end.None? {
      assert Parse(c, bytes).ok;
    } else {
      FirstLineDecides(c, bytes, end.value);
      RequestLineExactly(c.request, bytes[..end.value]);
      assert forall k: nat :: FirstLineEnds(bytes, k) <==> k == end.value;
    }
    hide Parse, RequestLine, IsRequestLine;
  }
}
