/** A request as a client writes it, and as it is read back (src/http_conn.c).

    Written: any empty lines, a request line, header lines in any order with
    their names in any case and blanks about their values, each line ended with
    CR LF or LF alone, and the empty line. Read: by the parse of HttpConn, a byte
    at a time. */
module HttpRequest {
  import opened Wrappers
  import opened CStrings
  import opened Decimals
  import opened HttpHead
  import opened HttpConn

  /* ---- A request as it is written ---- */

  datatype Field =
    | Host(host: string)
    | ContentLength(n: nat)
    | Pyro
    | Expect(token: string)
    | Coding(token: string)
    | Other(value: string)

  /** A header line: a name, and a value with blanks before and after it. */
  datatype Header = Header(name: string, field: Field, lead: string, trail: string, crlf: bool)

  datatype Written = Written(empty: seq<bool>, verb: string, path: string, version: string, crlf: bool,
                             headers: seq<Header>, last: bool)

  /** s is the text in any letter case. */
  predicate AnyCase(s: string, text: string) {
    |s| == |text| && forall i :: 0 <= i < |s| ==> Lower(s[i]) == text[i]
  }

  predicate AllBlank(s: string) {
    forall c :: c in s ==> IsBlank(c)
  }

  predicate LineSafe(s: string) {
    '\n' !in s && '\0' !in s
  }

  function ValueText(f: Field): string {
    match f
    case Host(host) => host
    case ContentLength(n) => Shown(n)
    case Pyro => "1"
    case Expect(token) => token
    case Coding(token) => token
    case Other(value) => value
  }

  function Text(h: Header): string {
    h.name + ([':'] + (h.lead + (ValueText(h.field) + h.trail)))
  }

  function Wire(text: string, crlf: bool): string {
    text + (if crlf then "\r\n" else "\n")
  }

  /** None of the names that are read. */
  predicate OtherName(name: string) {
    && !AnyCase(name, "host") && !AnyCase(name, "content-length") && !AnyCase(name, "x-pyro")
    && !AnyCase(name, "expect") && !AnyCase(name, "transfer-encoding")
  }

  predicate Named(name: string, f: Field) {
    match f
    case Host(_) => AnyCase(name, "host")
    case ContentLength(_) => AnyCase(name, "content-length")
    case Pyro => AnyCase(name, "x-pyro")
    case Expect(_) => AnyCase(name, "expect")
    case Coding(_) => AnyCase(name, "transfer-encoding")
    case Other(_) => OtherName(name) && LineSafe(name) && ':' !in name
  }

  predicate Valued(f: Field) {
    match f
    case Host(host) =>
      && LineSafe(host) && |host| < HTTP_HOST_MAX
      && (host != "" ==> !IsBlank(host[0]) && !IsBlank(host[|host| - 1]))
    case ContentLength(n) => n <= LENGTH_MAX
    case Pyro => true
    case Expect(token) => AnyCase(token, "100-continue")
    case Coding(token) => AnyCase(token, "chunked") || AnyCase(token, "identity")
    case Other(value) => LineSafe(value)
  }

  /** Ended with LF alone, a text does not end in the CR that would be taken for
      part of its ending. */
  predicate Ends(text: string, crlf: bool) {
    !crlf && text != "" ==> text[|text| - 1] != '\r'
  }

  /** The line fits the buffer it is gathered in. */
  predicate Fits(text: string, crlf: bool) {
    |text| + (if crlf then 1 else 0) < HTTP_LINE_MAX
  }

  predicate WellWritten(h: Header) {
    && Named(h.name, h.field) && Valued(h.field) && AllBlank(h.lead) && AllBlank(h.trail)
    && Ends(Text(h), h.crlf) && (!h.field.Other? ==> Fits(Text(h), h.crlf))
  }

  /** One Host; lengths, if more than one, the same; and codings too. */
  predicate Agree(f: Field, g: Field) {
    && !(f.Host? && g.Host?)
    && (f.ContentLength? && g.ContentLength? ==> f.n == g.n)
    && (f.Coding? && g.Coding? ==> (AnyCase(f.token, "chunked") <==> AnyCase(g.token, "chunked")))
  }

  predicate AllAgree(hs: seq<Header>) {
    forall i, j :: 0 <= i < j < |hs| ==> Agree(hs[i].field, hs[j].field)
  }

  function RequestLineText(q: Written): string {
    q.verb + ([' '] + (q.path + ([' '] + q.version)))
  }

  predicate WellWrittenRequest(q: Written) {
    && q.verb in {"GET", "HEAD", "POST"}
    && q.path != "" && |q.path| < HTTP_PATH_MAX && NoBlankOrNul(q.path) && '\n' !in q.path
    && "HTTP/1." <= q.version && LineSafe(q.version)
    && Ends(RequestLineText(q), q.crlf) && Fits(RequestLineText(q), q.crlf)
    && (forall h :: h in q.headers ==> WellWritten(h)) && AllAgree(q.headers)
  }

  function EmptyLines(ends: seq<bool>): string {
    if ends == [] then "" else EmptyLines(ends[..|ends| - 1]) + Wire("", ends[|ends| - 1])
  }

  function HeaderLines(hs: seq<Header>): string {
    if hs == [] then "" else HeaderLines(hs[..|hs| - 1]) + Wire(Text(hs[|hs| - 1]), hs[|hs| - 1].crlf)
  }

  /** Up to the empty line. */
  function Opening(q: Written, hs: seq<Header>): string {
    (EmptyLines(q.empty) + Wire(RequestLineText(q), q.crlf)) + HeaderLines(hs)
  }

  function Bytes(q: Written): string {
    Opening(q, q.headers) + Wire("", q.last)
  }

  /* ---- What a header line says ---- */

  lemma CaseKeeps(s: string, text: string, c: char)
    requires AnyCase(s, text) && c !in text && Lower(c) == c
    ensures c !in s
  {
  }

  /** A line with a colon after its name is the header of that name alone. */
  lemma ValueByName(name: string, v: string, of: string)
    requires ':' !in name && '\0' !in name && '\0' !in v && ':' !in of
    ensures ValueOf(name + ([':'] + v), of) == if AnyCase(name, of) then Some(SkipBlanks(v)) else None
  {
    hide SkipBlanks, CString;
    var s := name + ([':'] + v);
    assert '\0' !in s;
    CStringStops(s, "");
    assert s + "" == s;
    assert s[|name|] == ':' && s[|name| + 1..] == v;
    assert forall i :: 0 <= i < |name| ==> s[i] == name[i];
    assert Lower(':') == ':';
    if |of| < |name| {
      assert s[|of|] == name[|of|];
    }
  }

  lemma {:induction false} SkipLead(lead: string, rest: string)
    requires AllBlank(lead)
    ensures SkipBlanks(lead + rest) == SkipBlanks(rest)
  {
    if lead == "" {
      assert lead + rest == rest;
    } else {
      SkipLead(lead[1..], rest);
      assert (lead + rest)[1..] == lead[1..] + rest;
    }
  }

  lemma {:induction false} TrimTrail(s: string, trail: string)
    requires AllBlank(trail)
    ensures TrimEnd(s + trail) == TrimEnd(s)
  {
    if trail == "" {
      assert s + trail == s;
    } else {
      TrimTrail(s, trail[..|trail| - 1]);
      assert (s + trail)[..|s + trail| - 1] == s + trail[..|trail| - 1];
    }
  }

  lemma BlanksSkipped(s: string)
    requires AllBlank(s)
    ensures SkipBlanks(s) == ""
  {
    SkipLead(s, "");
    assert s + "" == s;
  }

  lemma TokenLeads(token: string, trail: string, text: string)
    requires AnyCase(token, text) && text != ""
    ensures ContainsToken(token + trail, text)
  {
    assert forall i :: 0 <= i < |text| ==> (token + trail)[i] == token[i];
  }

  lemma {:induction false} TokenAbsent(v: string, text: string)
    requires text != "" && forall c :: c in v ==> !SameLetter(c, text[0])
    ensures !ContainsToken(v, text)
  {
    if v != "" {
      assert v[0] in v;
      TokenAbsent(v[1..], text);
    }
  }

  lemma IdentityIsNotChunked(token: string, trail: string)
    requires AnyCase(token, "identity") && AllBlank(trail)
    ensures !ContainsToken(token + trail, "chunked")
  {
    forall c | c in token + trail
      ensures !SameLetter(c, 'c')
    {
      if c in token {
        var i :| 0 <= i < |token| && token[i] == c;
        assert Lower(c) == "identity"[i];
      }
    }
    TokenAbsent(token + trail, "chunked");
  }

  lemma LengthReads(n: nat, trail: string)
    requires AllBlank(trail)
    ensures ParsedLength(Shown(n) + trail) == if n <= LENGTH_MAX then Length.Length(n) else TooLarge
  {
    ShownIsDecimal(n);
    DigitsRead(Shown(n), trail);
  }

  lemma DigitsRead(ds: string, trail: string)
    requires AllDigits(ds) && ds != "" && AllBlank(trail)
    ensures ParsedLength(ds + trail) == if Decimal(ds) <= LENGTH_MAX then Length.Length(Decimal(ds)) else TooLarge
  {
    hide Decimal;
    var v := ds + trail;
    assert trail != "" ==> trail[0] in trail;
    DigitsBefore(ds, trail);
    BlanksSkipped(trail);
    assert v[|ds|..] == trail && v[..|ds|] == ds;
  }

  /** A value is a length exactly when it is digits, at least one, and then blanks
      alone, and the digits say no more than LENGTH_MAX. */
  lemma LengthIsDigits(v: string)
    ensures ParsedLength(v).Length? <==>
            exists k :: 0 < k <= |v| && AllDigits(v[..k]) && AllBlank(v[k..]) && Decimal(v[..k]) <= LENGTH_MAX
    ensures forall k :: 0 < k <= |v| && AllDigits(v[..k]) && AllBlank(v[k..]) && Decimal(v[..k]) <= LENGTH_MAX ==>
              ParsedLength(v) == Length.Length(Decimal(v[..k]))
  {
    hide Decimal, Digits, SkipBlanks;
    var k := |Digits(v)|;
    if ParsedLength(v).Length? {
      AllSkipped(v[k..]);
      assert v[..k] == Digits(v) && k > 0;
    }
    forall k | 0 < k <= |v| && AllDigits(v[..k]) && AllBlank(v[k..]) && Decimal(v[..k]) <= LENGTH_MAX
      ensures ParsedLength(v) == Length.Length(Decimal(v[..k]))
    {
      DigitsRead(v[..k], v[k..]);
      assert v == v[..k] + v[k..];
    }
  }

  lemma {:induction false} AllSkipped(s: string)
    requires SkipBlanks(s) == ""
    ensures AllBlank(s)
  {
    if s != "" {
      AllSkipped(s[1..]);
      assert s == [s[0]] + s[1..];
    }
  }

  /** The value that is read of a well-written header. */
  lemma ValueReads(h: Header)
    requires WellWritten(h)
    ensures SkipBlanks(h.lead + (ValueText(h.field) + h.trail))
         == if ValueText(h.field) == "" then "" else SkipBlanks(ValueText(h.field) + h.trail)
    ensures !h.field.Other? && ValueText(h.field) != "" ==>
              SkipBlanks(ValueText(h.field) + h.trail) == ValueText(h.field) + h.trail
  {
    hide SkipBlanks, Text;
    var x := ValueText(h.field);
    SkipLead(h.lead, x + h.trail);
    if x == "" {
      assert x + h.trail == h.trail;
      BlanksSkipped(h.trail);
    } else if !h.field.Other? {
      FirstStands(h.field);
      SkipNone(x + h.trail);
    }
  }

  lemma SkipNone(s: string)
    requires s != "" && !IsBlank(s[0])
    ensures SkipBlanks(s) == s
  {
  }

  lemma FirstStands(f: Field)
    requires Valued(f) && !f.Other? && ValueText(f) != ""
    ensures !IsBlank(ValueText(f)[0])
  {
    if f.ContentLength? {
      assert Shown(f.n)[0] in Shown(f.n);
    } else if f.Expect? || f.Coding? {
      assert Lower(ValueText(f)[0]) in "1ci";
    }
  }

  lemma ValueIsSafe(h: Header)
    requires WellWritten(h)
    ensures LineSafe(Text(h)) && ':' !in h.name && '\0' !in h.name
    ensures '\0' !in h.lead + (ValueText(h.field) + h.trail)
  {
    NameIsSafe(h.name, h.field);
    if h.field.ContentLength? {
      assert forall c :: c in Shown(h.field.n) ==> IsDigit(c);
    } else if h.field.Expect? {
      CaseKeeps(h.field.token, "100-continue", '\0');
      CaseKeeps(h.field.token, "100-continue", '\n');
    } else if h.field.Coding? {
      var text := if AnyCase(h.field.token, "chunked") then "chunked" else "identity";
      CaseKeeps(h.field.token, text, '\0');
      CaseKeeps(h.field.token, text, '\n');
    }
    assert LineSafe(ValueText(h.field));
    assert LineSafe(h.lead) && LineSafe(h.trail);
  }

  lemma NameIsSafe(name: string, f: Field)
    requires Named(name, f)
    ensures LineSafe(name) && ':' !in name
  {
    if !f.Other? {
      var of := match f
        case Host(_) => "host"
        case ContentLength(_) => "content-length"
        case Pyro => "x-pyro"
        case Expect(_) => "expect"
        case _ => "transfer-encoding";
      CaseKeeps(name, of, '\0');
      CaseKeeps(name, of, '\n');
      CaseKeeps(name, of, ':');
    }
  }

  /** What a well-written header line says to what the head has said before. */
  function Means(r: Request, f: Field): Said {
    match f
    case Host(host) => More(r.(host := if r.host == "" then host else "?"))
    case ContentLength(n) =>
      if r.haveLength && r.contentLength != n then Refusal(400) else More(r.(contentLength := n, haveLength := true))
    case Pyro => More(r.(xPyro := true))
    case Expect(_) => More(r.(expectContinue := true))
    case Coding(token) => More(r.(chunked := AnyCase(token, "chunked")))
    case Other(_) => More(r)
  }

  lemma HeaderMeans(r: Request, h: Header)
    requires WellWritten(h)
    ensures HeaderSays(r, Text(h)) == Means(r, h.field)
  {
    hide ValueOf, SkipBlanks, ContainsToken, ParsedLength, TrimEnd, Text;
    var v := h.lead + (ValueText(h.field) + h.trail);
    TextIs(h);
    ValueIsSafe(h);
    ValueReads(h);
    NamesDiffer(h.name);
    ValueByName(h.name, v, "content-length");
    ValueByName(h.name, v, "transfer-encoding");
    ValueByName(h.name, v, "expect");
    ValueByName(h.name, v, "host");
    ValueByName(h.name, v, "x-pyro");
    ValueMeans(r, h);
  }

  lemma NamesDiffer(name: string)
    ensures AnyCase(name, "expect") ==> !AnyCase(name, "x-pyro")
  {
    if AnyCase(name, "expect") {
      assert Lower(name[0]) == 'e';
    }
  }

  lemma TextIs(h: Header)
    ensures Text(h) == h.name + ([':'] + (h.lead + (ValueText(h.field) + h.trail)))
  {
  }

  /** Its value, read for its name. */
  predicate ReadsAs(r: Request, f: Field, v: string) {
    match f
    case Host(host) => HostAfter(r.host, v) == (if r.host == "" then host else "?")
    case ContentLength(n) => LengthSays(r, v) == Means(r, f)
    case Pyro => SaysOne(v)
    case Expect(_) => ContainsToken(v, "100-continue")
    case Coding(token) =>
      (!ContainsToken(v, "identity") || ContainsToken(v, "chunked")) == AnyCase(token, "chunked")
    case Other(_) => true
  }

  lemma ValueMeans(r: Request, h: Header)
    requires WellWritten(h)
    ensures ReadsAs(r, h.field, if ValueText(h.field) == "" then "" else ValueText(h.field) + h.trail)
  {
    hide SkipBlanks, Text, ParsedLength, ContainsToken;
    match h.field
    case Host(host) => HostReads(host, h.trail);
    case ContentLength(n) => LengthReads(n, h.trail);
    case Pyro =>
    case Expect(token) => TokenLeads(token, h.trail, "100-continue");
    case Coding(token) =>
      if AnyCase(token, "chunked") {
        TokenLeads(token, h.trail, "chunked");
      } else {
        TokenLeads(token, h.trail, "identity");
        IdentityIsNotChunked(token, h.trail);
      }
    case Other(_) =>
  }

  lemma HostReads(host: string, trail: string)
    requires Valued(Host(host)) && AllBlank(trail)
    ensures TrimEnd(host + trail) == host && TrimEnd("") == ""
  {
    TrimTrail(host, trail);
  }

  /** What headers say together: each what its field says, whatever their order,
      and nothing that none of them says. */
  predicate Carries(r: Request, hs: seq<Header>) {
    CarriesLength(r, hs) && CarriesHost(r, hs) && CarriesFlags(r, hs)
  }

  predicate CarriesLength(r: Request, hs: seq<Header>) {
    && (r.haveLength <==> exists h :: h in hs && h.field.ContentLength?)
    && (forall h :: h in hs && h.field.ContentLength? ==> r.contentLength == h.field.n)
    && (!r.haveLength ==> r.contentLength == 0)
  }

  predicate CarriesHost(r: Request, hs: seq<Header>) {
    && (forall h :: h in hs && h.field.Host? ==> r.host == h.field.host)
    && ((forall h :: h in hs ==> !h.field.Host?) ==> r.host == "")
  }

  predicate CarriesFlags(r: Request, hs: seq<Header>) {
    && (r.xPyro <==> exists h :: h in hs && h.field.Pyro?)
    && (r.expectContinue <==> exists h :: h in hs && h.field.Expect?)
    && (r.chunked <==> exists h :: h in hs && h.field.Coding? && AnyCase(h.field.token, "chunked"))
  }

  /** The request line is as it was. */
  predicate SameLine(r: Request, r': Request) {
    r'.haveLine == r.haveLine && r'.verb == r.verb && r'.path == r.path && r'.headOnly == r.headOnly
  }

  /** One header more. */
  ghost predicate Joins(hs: seq<Header>, h: Header, all: seq<Header>) {
    h in all && forall g :: g in all <==> g in hs || g == h
  }

  lemma CarriesOn(r: Request, hs: seq<Header>, h: Header)
    requires Carries(r, hs) && WellWritten(h) && forall g :: g in hs ==> Agree(g.field, h.field)
    ensures var said := HeaderSays(r, Text(h)); said.More? && Carries(said.req, hs + [h]) && SameLine(r, said.req)
  {
    hide HeaderSays, Text, WellWritten, CarriesFlags, CarriesHost, CarriesLength, Means, Joins, AnyCase;
    HeaderMeans(r, h);
    Joined(hs, h);
    LengthAgrees(r, hs, h);
    var s := MeansMore(r, h);
    LengthOn(r, s, hs, h, hs + [h]);
    HostOn(r, s, hs, h, hs + [h]);
    FlagsOn(r, s, hs, h, hs + [h]);
  }

  lemma Joined(hs: seq<Header>, h: Header)
    ensures Joins(hs, h, hs + [h])
  {
  }

  lemma LengthAgrees(r: Request, hs: seq<Header>, h: Header)
    requires CarriesLength(r, hs)
    requires forall g :: g in hs && g.field.ContentLength? && h.field.ContentLength? ==> g.field.n == h.field.n
    ensures h.field.ContentLength? && r.haveLength ==> r.contentLength == h.field.n
  {
  }

  /** What each part of the request is after it. */
  lemma MeansMore(r: Request, h: Header) returns (s: Request)
    requires h.field.ContentLength? && r.haveLength ==> r.contentLength == h.field.n
    ensures Means(r, h.field) == More(s) && SameLine(r, s)
    ensures if h.field.ContentLength? then s.haveLength && s.contentLength == h.field.n
            else s.haveLength == r.haveLength && s.contentLength == r.contentLength
    ensures s.host == (if !h.field.Host? then r.host else if r.host == "" then h.field.host else "?")
    ensures s.xPyro == (r.xPyro || h.field.Pyro?) && s.expectContinue == (r.expectContinue || h.field.Expect?)
    ensures s.chunked == if h.field.Coding? then AnyCase(h.field.token, "chunked") else r.chunked
  {
    hide AnyCase;
    s := Means(r, h.field).req;
  }

  lemma LengthOn(r: Request, s: Request, hs: seq<Header>, h: Header, all: seq<Header>)
    requires CarriesLength(r, hs) && Joins(hs, h, all)
    requires forall g :: g in hs && g.field.ContentLength? && h.field.ContentLength? ==> g.field.n == h.field.n
    requires if h.field.ContentLength? then s.haveLength && s.contentLength == h.field.n
             else s.haveLength == r.haveLength && s.contentLength == r.contentLength
    ensures CarriesLength(s, all)
  {
  }

  lemma HostOn(r: Request, s: Request, hs: seq<Header>, h: Header, all: seq<Header>)
    requires CarriesHost(r, hs) && Joins(hs, h, all)
    requires forall g :: g in hs && g.field.Host? ==> !h.field.Host?
    requires s.host == (if !h.field.Host? then r.host else if r.host == "" then h.field.host else "?")
    ensures CarriesHost(s, all)
  {
  }

  lemma FlagsOn(r: Request, s: Request, hs: seq<Header>, h: Header, all: seq<Header>)
    requires CarriesFlags(r, hs) && Joins(hs, h, all)
    requires forall g :: g in hs && g.field.Coding? && h.field.Coding? ==>
               (AnyCase(g.field.token, "chunked") <==> AnyCase(h.field.token, "chunked"))
    requires s.xPyro == (r.xPyro || h.field.Pyro?) && s.expectContinue == (r.expectContinue || h.field.Expect?)
    requires s.chunked == if h.field.Coding? then AnyCase(h.field.token, "chunked") else r.chunked
    ensures CarriesFlags(s, all)
  {
    hide AnyCase;
  }

  /* ---- Lines taken a byte at a time ---- */

  function HeadConn(n: nat, line: Line, r: Request): Conn {
    Conn(Head, n, line, r, Discard, 0, "", None, false)
  }

  /** All of w taken, the head has said r, and a line begins. */
  predicate InHead(w: string, v: Verdict, r: Request) {
    Wanted(w, v) && Taken(w, v) == HeadConn(|w|, NO_LINE, r)
  }

  /** A line of this text in its buffer. */
  function Gathered(text: string): Line {
    if |text| < HTTP_LINE_MAX then Line(text, false) else Line(text[..HTTP_LINE_MAX - 1], true)
  }

  lemma LengthenedIs(text: string, b: char)
    ensures Lengthened(Gathered(text), b) == Gathered(text + [b])
  {
    if |text| >= HTTP_LINE_MAX - 1 {
      assert (text + [b])[..HTTP_LINE_MAX - 1] == text[..HTTP_LINE_MAX - 1];
    }
    if |text| == HTTP_LINE_MAX - 1 {
      assert text[..HTTP_LINE_MAX - 1] == text;
    }
  }

  lemma ByteOfText(n: nat, text: string, r: Request, b: char, v: Verdict)
    requires b != '\n' && n < HTTP_HEAD_MAX
    ensures ByteTaken(HeadConn(n, Gathered(text), r), b, v) == HeadConn(n + 1, Gathered(text + [b]), r)
  {
    hide LineEnded, Gathered, Lengthened;
    LengthenedIs(text, b);
  }

  lemma {:induction false} TextTaken(w: string, v: Verdict, r: Request, text: string)
    requires InHead(w, v, r) && '\n' !in text && |w| + |text| <= HTTP_HEAD_MAX
    ensures Wanted(w + text, v) && Taken(w + text, v) == HeadConn(|w| + |text|, Gathered(text), r)
  {
    hide ByteTaken, Taken, Wanted;
    if text == "" {
      assert w + text == w;
    } else {
      var init, b := text[..|text| - 1], text[|text| - 1];
      TextTaken(w, v, r, init);
      assert w + text == (w + init) + [b];
      OneByteTaken(w + init, v, b);
      assert text == init + [b];
      ByteOfText(|w| + |init|, init, r, b, v);
    }
  }

  /** What a line says, as long as its buffer or longer. */
  function SaidBy(r: Request, text: string, crlf: bool): Said {
    if Fits(text, crlf) then LineSays(r, Line(text, false))
    else if r.haveLine then More(r)
    else Refusal(414)
  }

  /** A line's bytes, from where one begins, are heard as its text. */
  lemma LineTaken(w: string, v: Verdict, r: Request, text: string, crlf: bool)
    requires InHead(w, v, r) && '\n' !in text && Ends(text, crlf) && |w| + |Wire(text, crlf)| <= HTTP_HEAD_MAX
    ensures Wanted(w + Wire(text, crlf), v)
    ensures Taken(w + Wire(text, crlf), v)
         == Heard(HeadConn(|w + Wire(text, crlf)|, NO_LINE, r), SaidBy(r, text, crlf), v)
  {
    hide ByteTaken, Taken, Wanted, Gathered, SaidBy, Heard;
    var full := if crlf then text + "\r" else text;
    TextTaken(w, v, r, full);
    OneByteTaken(w + full, v, '\n');
    assert w + Wire(text, crlf) == (w + full) + ['\n'];
    EndOfLine(|w| + |full|, r, text, crlf, v);
  }

  lemma EndOfLine(n: nat, r: Request, text: string, crlf: bool, v: Verdict)
    requires Ends(text, crlf) && n < HTTP_HEAD_MAX
    ensures ByteTaken(HeadConn(n, Gathered(if crlf then text + "\r" else text), r), '\n', v)
         == Heard(HeadConn(n + 1, NO_LINE, r), SaidBy(r, text, crlf), v)
  {
    hide Heard, LineSays, HeadIn;
    var full := if crlf then text + "\r" else text;
    LineIs(text, crlf);
    if |full| >= HTTP_LINE_MAX {
      LongLine(r, WithoutReturn(full[..HTTP_LINE_MAX - 1]));
    }
  }

  lemma LineIs(text: string, crlf: bool)
    requires Ends(text, crlf)
    ensures var full := if crlf then text + "\r" else text;
            && full[..|full|] == full && WithoutReturn(full) == text
            && (Fits(text, crlf) <==> |full| < HTTP_LINE_MAX)
  {
    if crlf {
      assert (text + "\r")[..|text|] == text;
    }
  }

  lemma LongLine(r: Request, text: string)
    ensures LineSays(r, Line(text, true)) == if r.haveLine then More(r) else Refusal(414)
  {
  }

  lemma {:induction false} EmptyLinesTaken(ends: seq<bool>, v: Verdict)
    requires |EmptyLines(ends)| <= HTTP_HEAD_MAX
    ensures InHead(EmptyLines(ends), v, NO_REQUEST)
  {
    hide Wire;
    if ends != [] {
      EmptyLinesTaken(ends[..|ends| - 1], v);
      LineTaken(EmptyLines(ends[..|ends| - 1]), v, NO_REQUEST, "", ends[|ends| - 1]);
    }
  }

  /** The request line's verb, path and head flag. */
  predicate SaysLine(r: Request, q: Written) {
    && r.haveLine && r.path == q.path && r.headOnly == (q.verb == "HEAD")
    && r.verb == (if q.verb == "POST" then "POST" else "GET")
  }

  lemma RequestLineHeard(q: Written)
    requires WellWrittenRequest(q)
    ensures var said := SaidBy(NO_REQUEST, RequestLineText(q), q.crlf);
            && said.More? && SaysLine(said.req, q) && Carries(said.req, [])
            && '\n' !in RequestLineText(q)
  {
    hide ParsedRequestLine;
    RequestLineRoundTrip(q.verb, q.path, q.version);
  }

  lemma {:induction false} OpeningTaken(q: Written, v: Verdict, k: nat) returns (r: Request)
    requires WellWrittenRequest(q) && k <= |q.headers| && |Opening(q, q.headers[..k])| <= HTTP_HEAD_MAX
    ensures InHead(Opening(q, q.headers[..k]), v, r) && SaysLine(r, q) && Carries(r, q.headers[..k])
  {
    hide Text, Wire, WellWritten, Agree, Carries, SaidBy, HeaderSays, InHead;
    if k == 0 {
      assert Opening(q, q.headers[..0]) == EmptyLines(q.empty) + Wire(RequestLineText(q), q.crlf);
      EmptyLinesTaken(q.empty, v);
      RequestLineHeard(q);
      assert q.headers[..0] == [];
      r := SaidBy(NO_REQUEST, RequestLineText(q), q.crlf).req;
      LineGoesOn(EmptyLines(q.empty), v, NO_REQUEST, RequestLineText(q), q.crlf);
    } else {
      var h, hs := q.headers[k - 1], q.headers[..k - 1];
      assert q.headers[..k][..k - 1] == hs && q.headers[..k] == hs + [h];
      var w := Opening(q, hs);
      assert Opening(q, q.headers[..k]) == w + Wire(Text(h), h.crlf);
      var was := OpeningTaken(q, v, k - 1);
      CarriesOn(was, hs, h);
      HeaderHeard(was, h);
      r := SaidBy(was, Text(h), h.crlf).req;
      LineGoesOn(w, v, was, Text(h), h.crlf);
    }
  }

  lemma LineGoesOn(w: string, v: Verdict, r: Request, text: string, crlf: bool)
    requires InHead(w, v, r) && '\n' !in text && Ends(text, crlf) && |w + Wire(text, crlf)| <= HTTP_HEAD_MAX
    requires SaidBy(r, text, crlf).More?
    ensures InHead(w + Wire(text, crlf), v, SaidBy(r, text, crlf).req)
  {
    hide SaidBy;
    LineTaken(w, v, r, text, crlf);
  }

  /** A header line is heard as it says, or, another's and too long, passed over. */
  lemma HeaderHeard(r: Request, h: Header)
    requires WellWritten(h) && r.haveLine
    ensures '\n' !in Text(h) && Ends(Text(h), h.crlf)
    ensures SaidBy(r, Text(h), h.crlf) == HeaderSays(r, Text(h))
  {
    hide HeaderSays;
    ValueIsSafe(h);
    HeaderMeans(r, h);
  }

  /** Where the head leads: refused without a usable length; else as the handler
      says, the body to come being as long as the request said. */
  predicate LedOn(c: Conn, v: Verdict) {
    if c.req.chunked || (c.req.verb == "POST" && !c.req.haveLength) then c.phase == Send && c.refused == Some(411)
    else if v == Answer then c.phase == Send && c.refused == None
    else if v.GatherUpTo? && (c.req.contentLength > v.max || c.req.contentLength >= HTTP_WORK_SIZE) then
      c.phase == Send && c.refused == Some(413)
    else
      && c.phase == Body && c.bodyLeft == c.req.contentLength && c.refused == None
      && c.mode == (if v.GatherUpTo? then Gather else if v.StreamBody? then Stream else Discard)
      && (c.continued <==> c.req.expectContinue && c.req.contentLength > 0 && !v.DiscardBody?)
  }

  /** Every request so written is read back: its verb, its path, whether it is a
      HEAD, its host, its length and its flags, whatever the order of its headers,
      the case of their names, the blanks about their values and the line ends. A
      chunked one, or a POST without a length, is refused 411. */
  lemma RequestComesBack(q: Written, v: Verdict)
    requires WellWrittenRequest(q) && |Bytes(q)| <= HTTP_HEAD_MAX
    ensures Wanted(Bytes(q), v)
    ensures var c := Taken(Bytes(q), v);
            SaysLine(c.req, q) && Carries(c.req, q.headers) && LedOn(c, v) && c.body == ""
  {
    hide Carries, WellWritten, InHead, WellWrittenRequest, HeadIn, LedOn, SaidBy, Taken;
    var n := |q.headers|;
    assert q.headers[..n] == q.headers;
    var r := OpeningTaken(q, v, n);
    LineTaken(Opening(q, q.headers), v, r, "", q.last);
    HeadLeadsOn(|Bytes(q)|, r, v);
  }

  lemma HeadLeadsOn(n: nat, r: Request, v: Verdict)
    requires r.haveLine
    ensures forall crlf: bool :: SaidBy(r, "", crlf) == EndOfHead
    ensures var c := HeadIn(HeadConn(n, NO_LINE, r), v); LedOn(c, v) && c.req == r && c.body == ""
  {
  }

  /** Then exactly the next Content-Length bytes are the body: each is wanted, and
      after the last of them no more is. */
  lemma BodyFollows(q: Written, v: Verdict, body: string)
    requires WellWrittenRequest(q) && |Bytes(q)| <= HTTP_HEAD_MAX
    requires var c := Taken(Bytes(q), v); c.phase == Body && |body| <= c.req.contentLength
    ensures Wanted(Bytes(q) + body, v)
    ensures var c := Taken(Bytes(q) + body, v);
            && SaysLine(c.req, q) && Carries(c.req, q.headers)
            && c.body == (if v.DiscardBody? then "" else body)
            && (Wants(c) <==> |body| < c.req.contentLength)
  {
    hide Carries, WellWrittenRequest, SaysLine, Taken, Bytes, Wanted;
    RequestComesBack(q, v);
    BodyBytesAreBytes(Bytes(q), v, body);
  }

  /** Served over its ring, in whatever pieces and at whatever calls, an exchange
      with its fill of such a request and its whole body is the handler's to answer,
      with that request and that body, unless its sink has answered already. */
  lemma RequestServed(c: HttpConn, q: Written, body: string, closes: bool)
    requires WellWrittenRequest(q) && |Bytes(q)| <= HTTP_HEAD_MAX
    requires HasItsFill(c, Bytes(q) + body, closes) && c.answered != FromSink
    requires var d := Taken(Bytes(q), c.verdict); d.phase == Body && |body| == d.req.contentLength
    ensures c.conn.phase == (if c.answered == AtTheEnd then Send else Apply) && c.conn.refused == None
    ensures SaysLine(c.conn.req, q) && Carries(c.conn.req, q.headers)
    ensures c.conn.body == if c.verdict.DiscardBody? then "" else body
  {
    hide Carries, WellWrittenRequest, SaysLine, Taken, Bytes, Wanted;
    var w := Bytes(q) + body;
    RequestComesBack(q, c.verdict);
    BodyFollows(q, c.verdict, body);
    BodyBytesAreBytes(Bytes(q), c.verdict, body);
    TakenIsPrefix(c, w);
    FillIsSettled(c, w, closes);
    assert w[..|w|] == w;
    PrefixIsSettled(w, c.verdict, |c.taken|, |w|);
  }

  /** A peer that closes before the end of such a request has asked nothing if it
      sent nothing, and otherwise is refused 400, in the head or in the body. */
  lemma CutRequestRefused(q: Written, v: Verdict, body: string, k: nat)
    requires WellWrittenRequest(q) && |Bytes(q)| <= HTTP_HEAD_MAX && k < |Bytes(q) + body|
    requires var c := Taken(Bytes(q), v); body == "" || (c.phase == Body && |body| == c.req.contentLength)
    ensures var c := Taken((Bytes(q) + body)[..k], v);
            && Wanted((Bytes(q) + body)[..k], v) && Wants(c)
            && (k == 0 ==> Outcome(c, true) == START.(phase := Done))
            && (k > 0 ==> Outcome(c, true).phase == Send && Outcome(c, true).refused == Some(400))
  {
    hide WellWrittenRequest, Bytes, HeadByte;
    var w := Bytes(q) + body;
    RequestComesBack(q, v);
    if body == "" {
      assert w == Bytes(q);
    } else {
      BodyBytesAreBytes(Bytes(q), v, body);
    }
    assert w[..|w|] == w;
    WantedBefore(w, v, k, |w|);
    StillWanted(w, v, k);
    RequestIsBounded(w[..k], v);
    assert k == 0 ==> w[..k] == "";
  }

  lemma {:induction false} StillWanted(w: string, v: Verdict, k: nat)
    requires Wanted(w, v) && k <= |w|
    ensures Wanted(w[..k], v)
    decreases |w|
  {
    hide Taken;
    if k == |w| {
      assert w[..k] == w;
    } else {
      StillWanted(w[..|w| - 1], v, k);
      assert w[..|w| - 1][..k] == w[..k];
    }
  }

  /** And so is the exchange that it was cut off from, once that has its fill. */
  lemma CutRequestServed(c: HttpConn, q: Written, body: string, k: nat)
    requires WellWrittenRequest(q) && |Bytes(q)| <= HTTP_HEAD_MAX && k < |Bytes(q) + body|
    requires var d := Taken(Bytes(q), c.verdict); body == "" || (d.phase == Body && |body| == d.req.contentLength)
    requires HasItsFill(c, (Bytes(q) + body)[..k], true) && c.answered != FromSink
    ensures c.answered == NotYet
    ensures if k == 0 then c.conn == START.(phase := Done) else c.conn.phase == Send && c.conn.refused == Some(400)
  {
    hide WellWrittenRequest, Bytes, Taken, Wanted;
    var w := (Bytes(q) + body)[..k];
    CutRequestRefused(q, c.verdict, body, k);
    TakenIsPrefix(c, w);
    FillIsSettled(c, w, true);
    assert w[..|w|] == w;
    PrefixIsSettled(w, c.verdict, |c.taken|, |w|);
  }

  /* ---- What is refused ---- */

  /** A second length that differs is refused, and one too large to hold; a second
      Host leaves the name of no board. */
  lemma HeaderRefused(r: Request, h: Header, lead: string, trail: string, n: nat)
    requires WellWritten(h) && AllBlank(lead) && AllBlank(trail)
    ensures h.field.ContentLength? && r.haveLength && r.contentLength != h.field.n ==>
              HeaderSays(r, Text(h)) == Refusal(400)
    ensures h.field.Host? && r.host != "" ==> HeaderSays(r, Text(h)) == More(r.(host := "?"))
    ensures n > LENGTH_MAX ==> LengthSays(r, Shown(n) + trail) == Refusal(413)
  {
    hide HeaderSays, Text;
    HeaderMeans(r, h);
    LengthReads(n, trail);
  }

  /** The head's 8,193rd byte is refused, whatever it is. */
  lemma LongHeadRefused(w: string, v: Verdict, b: char)
    requires Wanted(w, v) && Taken(w, v).phase == Head
    ensures |w| <= HTTP_HEAD_MAX
    ensures |w| == HTTP_HEAD_MAX ==>
              var c := Taken(w + [b], v); c.phase == Send && c.refused == Some(431) && !Wants(c)
  {
    RequestIsBounded(w, v);
    OneByteTaken(w, v, b);
  }
}
