/** What one line of a request's head says (src/http_conn.c). A line is the
    bytes gathered before a newline; as a C string it ends at its first NUL. */
module HttpHead {
  import opened Wrappers
  import opened CStrings
  import opened Decimals

  const HTTP_PATH_MAX := 64
  const HTTP_HOST_MAX := 64

  /** work: a gathered body, or the part of a response not yet in its ring. */
  const HTTP_WORK_SIZE := 5120

  /* ---- The request line ---- */

  datatype RequestLine = RequestLine(path: string, verb: string, headOnly: bool) | BadLine(status: nat)

  function ParsedMethod(m: string): Option<(string, bool)> {
    if m == "GET" then Some(("GET", false))
    else if m == "HEAD" then Some(("GET", true))
    else if m == "POST" then Some(("POST", false))
    else None
  }

  function ParsedRequestLine(line: string): (r: RequestLine)
    ensures r.RequestLine? ==> 0 < |r.path| < HTTP_PATH_MAX
  {
    var s := CString(line);
    var sp1 := IndexOf(s, ' ');
    if sp1 == |s| || sp1 == 0 then BadLine(400) else ParsedTarget(s[..sp1], s[sp1 + 1..])
  }

  /** The rest of the line, past the method and a space. */
  function ParsedTarget(m: string, s: string): (r: RequestLine)
    ensures r.RequestLine? ==> 0 < |r.path| < HTTP_PATH_MAX
  {
    var sp2 := IndexOf(s, ' ');
    if sp2 == |s| || sp2 == 0 then BadLine(400)
    else if !("HTTP/1." <= s[sp2 + 1..]) then BadLine(400)
    else if sp2 >= HTTP_PATH_MAX then BadLine(414)
    else
      match ParsedMethod(m)
      case None => BadLine(405)
      case Some((verb, headOnly)) => RequestLine(s[..sp2], verb, headOnly)
  }

  predicate NoBlankOrNul(s: string) {
    ' ' !in s && '\0' !in s
  }

  /** What a request line of a method, a path and a version should read as. */
  function ReadLine(m: string, path: string, version: string): RequestLine {
    if !("HTTP/1." <= version) then BadLine(400)
    else if |path| >= HTTP_PATH_MAX then BadLine(414)
    else if m !in {"GET", "HEAD", "POST"} then BadLine(405)
    else RequestLine(path, if m == "POST" then "POST" else "GET", m == "HEAD")
  }

  lemma TargetRoundTrip(m: string, path: string, version: string)
    requires path != "" && ' ' !in path
    ensures ParsedTarget(m, path + ([' '] + version)) == ReadLine(m, path, version)
  {
    IndexAfter(path, ' ', version);
  }

  lemma NoNul(m: string, rest: string)
    requires '\0' !in m && '\0' !in rest
    ensures CString(m + ([' '] + rest)) == m + ([' '] + rest)
  {
    var s := m + ([' '] + rest);
    assert '\0' !in s;
    CStringStops(s, "");
    assert s + "" == s;
  }

  /** A request line put together from a method, a path and a version parses back
      to them, if the method is known, the path fits and the version is of HTTP/1;
      or is refused with the status of the first of these that it is not. */
  lemma RequestLineRoundTrip(m: string, path: string, version: string)
    requires m != "" && NoBlankOrNul(m) && path != "" && NoBlankOrNul(path) && '\0' !in version
    ensures ParsedRequestLine(m + ([' '] + (path + ([' '] + version)))) == ReadLine(m, path, version)
  {
    var target := path + ([' '] + version);
    assert '\0' !in target;
    NoNul(m, target);
    IndexAfter(m, ' ', target);
    TargetRoundTrip(m, path, version);
  }

  /** A line with no blank, or one, or with nothing before the first or between
      the first two, is malformed. */
  lemma MalformedLine(m: string, path: string, rest: string)
    requires NoBlankOrNul(m) && NoBlankOrNul(path) && '\0' !in rest
    ensures ParsedRequestLine(m) == BadLine(400)
    ensures ParsedRequestLine(m + ([' '] + path)) == BadLine(400)
    ensures ParsedRequestLine("" + ([' '] + rest)) == BadLine(400)
    ensures ParsedRequestLine(m + ([' '] + ("" + ([' '] + rest)))) == BadLine(400)
  {
    CStringStops(m, "");
    assert m + "" == m;
    NoNul(m, path);
    NoNul("", rest);
    assert '\0' !in "" + ([' '] + rest);
    NoNul(m, "" + ([' '] + rest));
    IndexAfter(m, ' ', path);
    IndexAfter("", ' ', rest);
    IndexAfter(m, ' ', "" + ([' '] + rest));
  }

  /* ---- Content-Length ---- */

  /** The digits a value starts with. */
  function Digits(v: string): (ds: string)
    ensures AllDigits(ds)
    ensures |ds| <= |v| && ds == v[..|ds|]
    ensures |ds| < |v| ==> !IsDigit(v[|ds|])
  {
    if v == "" || !IsDigit(v[0]) then "" else [v[0]] + Digits(v[1..])
  }

  lemma {:induction false} DigitsBefore(ds: string, rest: string)
    requires AllDigits(ds) && (rest != "" ==> !IsDigit(rest[0]))
    ensures Digits(ds + rest) == ds
  {
    if ds == "" {
      assert ds + rest == rest;
    } else {
      assert ds[0] in ds;
      DigitsBefore(ds[1..], rest);
      assert (ds + rest)[1..] == ds[1..] + rest;
    }
  }

  datatype Length = TooLarge | Malformed | Length(n: nat)

  /** The largest length accepted; the six values past it that 32 bits could
      still hold are refused as too large. */
  const LENGTH_MAX := 4_294_967_289

  function ParsedLength(v: string): (r: Length)
    ensures r.Length? ==> r.n <= LENGTH_MAX
  {
    var ds := Digits(v);
    if Decimal(ds) > LENGTH_MAX then TooLarge
    else if ds == "" || SkipBlanks(v[|ds|..]) != "" then Malformed
    else Length(Decimal(ds))
  }

  /** The source's loop, in 32 bits: the value never overflows, and is the exact
      decimal value of the digits or is refused. */
  method ParseLength(v: string) returns (r: Length)
    ensures r == ParsedLength(v)
    ensures r.Length? ==> r.n < 0x1_0000_0000
  {
    var n, at := 0, 0;
    ghost var ds := Digits(v);
    while at < |v| && IsDigit(v[at])
      invariant at <= |ds| && n == Decimal(ds[..at]) <= LENGTH_MAX
    {
      assert ds[at] == v[at] && ds[..at + 1][..at] == ds[..at];
      if n > (0xFFFF_FFFF - 9) / 10 {
        DecimalGrows(ds, at + 1);
        return TooLarge;
      }
      n := n * 10 + DigitValue(v[at]);
      at := at + 1;
    }
    assert ds[..at] == ds;
    var rest := SkipBlanks(v[at..]);
    if at == 0 || rest != "" {
      return Malformed;
    }
    return Length(n);
  }

  /* ---- Header lines ---- */

  function Lower(c: char): char {
    if 'A' <= c <= 'Z' then (c as int + 32) as char else c
  }

  /** A header's value, if the line is that header's. */
  function ValueOf(line: string, name: string): Option<string> {
    var s, n := CString(line), |name|;
    if n < |s| && s[n] == ':' && (forall i :: 0 <= i < n ==> Lower(s[i]) == name[i]) then
      Some(SkipBlanks(s[n + 1..]))
    else None
  }

  /** c with its 32 bit set is t, for a t that has it set. */
  predicate SameLetter(c: char, t: char) {
    c == t || c as int + 32 == t as int
  }

  predicate StartsWith(v: string, token: string) {
    |token| <= |v| && forall i :: 0 <= i < |token| ==> SameLetter(v[i], token[i])
  }

  predicate ContainsToken(v: string, token: string) {
    v != "" && (StartsWith(v, token) || ContainsToken(v[1..], token))
  }

  /** A second Host line, or one too long for its field, leaves the name of no
      board: a question mark. */
  function HostAfter(host: string, v: string): (h: string)
    ensures |h| < HTTP_HOST_MAX
  {
    var h := TrimEnd(v);
    if host == "" && |h| < HTTP_HOST_MAX then h else "?"
  }

  predicate SaysOne(v: string) {
    v != "" && v[0] == '1' && (|v| == 1 || IsBlank(v[1]))
  }
}
