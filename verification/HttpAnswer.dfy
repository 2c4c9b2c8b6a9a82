/** A response as its peer reads it (src/http_conn.c): text cut at its line ends
    into a head and a body, by a reader that knows nothing of how the head was put
    together. */
module HttpAnswer {
  import opened CStrings
  import opened Decimals
  import opened HttpConn
  import opened HttpHead
  import opened HttpRequest
  import opened HttpResponse
  import opened NetRing
  import opened Words
  import opened Wrappers

  /** The lines up to the first empty one, and what follows it. */
  datatype Read = Read(lines: seq<string>, rest: string)

  function HeadOf(text: string): Option<Read>
    decreases |text|
  {
    var i := IndexOf(text, '\n');
    if i == |text| then None
    else if WithoutReturn(text[..i]) == "" then Some(Read([], text[i + 1..]))
    else
      match HeadOf(text[i + 1..])
      case None => None
      case Some(r) => Some(Read([WithoutReturn(text[..i])] + r.lines, r.rest))
  }

  /** The number after the first blank. */
  function StatusOf(line: string): Option<nat> {
    var i := IndexOf(line, ' ');
    if i == |line| || Digits(line[i + 1..]) == "" then None else Some(Decimal(Digits(line[i + 1..])))
  }

  /** The values of the header lines of a name, in order. */
  function ValuesOf(lines: seq<string>, name: string): seq<string> {
    if lines == [] then []
    else
      var v := ValueOf(lines[0], name);
      (if v.Some? then [v.value] else []) + ValuesOf(lines[1..], name)
  }

  /** The answer in a text: interim ones, of status 100, are passed over. */
  function Answered(text: string): Option<Read>
    decreases |text|
  {
    match HeadOf(text)
    case None => None
    case Some(r) =>
      if r.lines == [] then None
      else if StatusOf(r.lines[0]) == Some(100) && |r.rest| < |text| then Answered(r.rest)
      else Some(r)
  }

  /* ---- Lines as they are written ---- */

  function AsLines(lines: seq<string>): string {
    if lines == [] then "" else (lines[0] + "\r\n") + AsLines(lines[1..])
  }

  predicate Lines(lines: seq<string>) {
    forall l :: l in lines ==> l != "" && LineSafe(l)
  }

  lemma {:induction false} AsLinesAppend(a: seq<string>, b: seq<string>)
    ensures AsLines(a + b) == AsLines(a) + AsLines(b)
  {
    if a == [] {
      assert a + b == b;
    } else {
      AsLinesAppend(a[1..], b);
      assert (a + b)[1..] == a[1..] + b;
      Associate(a[0] + "\r\n", AsLines(a[1..]), AsLines(b));
    }
  }

  lemma {:induction false} ValuesAppend(a: seq<string>, b: seq<string>, name: string)
    ensures ValuesOf(a + b, name) == ValuesOf(a, name) + ValuesOf(b, name)
  {
    hide ValueOf;
    if a == [] {
      assert a + b == b;
    } else {
      ValuesAppend(a[1..], b, name);
      assert (a + b)[1..] == a[1..] + b;
      Associate(OneValue(a[0], name), ValuesOf(a[1..], name), ValuesOf(b, name));
    }
  }

  lemma FirstLine(line: string, after: string)
    requires '\n' !in line
    ensures var text := (line + "\r\n") + after;
            var i := IndexOf(text, '\n');
            i < |text| && WithoutReturn(text[..i]) == line && text[i + 1..] == after
  {
    var text := (line + "\r\n") + after;
    IndexAfter(line + "\r", '\n', after);
    assert text == (line + "\r") + (['\n'] + after);
    assert (line + "\r")[..|line|] == line;
  }

  lemma {:induction false} LinesReadBack(lines: seq<string>, rest: string)
    requires Lines(lines)
    ensures HeadOf(AsLines(lines) + ("\r\n" + rest)) == Some(Read(lines, rest))
  {
    hide IndexOf, WithoutReturn;
    if lines == [] {
      FirstLine("", rest);
      assert AsLines(lines) + ("\r\n" + rest) == ("" + "\r\n") + rest;
    } else {
      var ends, tail := "\r\n" + rest, AsLines(lines[1..]);
      LinesReadBack(lines[1..], rest);
      assert lines[0] in lines;
      FirstLine(lines[0], tail + ends);
      Associate(lines[0] + "\r\n", tail, ends);
      assert [lines[0]] + lines[1..] == lines;
    }
  }

  /* ---- The answer's own ---- */

  /** Lines of the caller's, put in as they are. */
  predicate Plain(h: Head, common: seq<string>, extra: seq<string>) {
    && Lines(common) && Lines(extra) && LineSafe(h.ctype)
    && h.common == AsLines(common) && h.extra == AsLines(extra)
  }

  function StatusLine(h: Head): string {
    "HTTP/1.1 " + (Shown(h.status) + (" " + Reason(h.status)))
  }

  function OwnLines(h: Head): seq<string> {
    ["Connection: close", "Content-Type: " + h.ctype, "Content-Length: " + Shown(h.len)]
  }

  function LinesOf(h: Head, common: seq<string>, extra: seq<string>): seq<string> {
    [StatusLine(h)] + (common + (OwnLines(h) + extra))
  }

  lemma BlockIsLines(h: Head, common: seq<string>, extra: seq<string>)
    requires Plain(h, common, extra)
    ensures HeaderBlock(h) == AsLines(LinesOf(h, common, extra)) + "\r\n"
  {
    hide Reason, Shown, AsLines, StatusLine, OwnLines, HeaderBlock;
    var own, status := AsLines(OwnLines(h)), StatusLine(h) + "\r\n";
    AsLinesAppend(OwnLines(h), extra);
    AsLinesAppend(common, OwnLines(h) + extra);
    AsLinesAppend([StatusLine(h)], common + (OwnLines(h) + extra));
    OneLine(StatusLine(h));
    BlockIs(h);
    Associate(status, h.common, own + h.extra);
    Associate(status + h.common, own, h.extra);
  }

  lemma OneLine(l: string)
    ensures AsLines([l]) == l + "\r\n"
  {
    assert [l][1..] == [];
  }

  lemma BlockIs(h: Head)
    ensures HeaderBlock(h) == ((StatusLine(h) + "\r\n") + h.common + AsLines(OwnLines(h))) + h.extra + "\r\n"
  {
    hide Reason, Shown, AsLines;
    var own := OwnLines(h);
    assert own == [own[0]] + ([own[1]] + [own[2]]);
    AsLinesAppend([own[1]], [own[2]]);
    AsLinesAppend([own[0]], [own[1]] + [own[2]]);
    OneLine(own[0]);
    OneLine(own[1]);
    OneLine(own[2]);
    StatusIs(h.status);
    OwnIs((StatusLine(h) + "\r\n") + h.common, h.ctype, Shown(h.len));
  }

  lemma StatusIs(status: nat)
    ensures "HTTP/1.1 " + Shown(status) + " " + Reason(status)
         == "HTTP/1.1 " + (Shown(status) + (" " + Reason(status)))
  {
    hide Reason, Shown;
    Associate("HTTP/1.1 " + Shown(status), " ", Reason(status));
    Associate("HTTP/1.1 ", Shown(status), " " + Reason(status));
  }

  lemma OwnIs(x: string, ctype: string, len: string)
    ensures x + "Connection: close\r\nContent-Type: " + ctype + "\r\nContent-Length: " + len + "\r\n"
         == x + (("Connection: close" + "\r\n")
                 + ((("Content-Type: " + ctype) + "\r\n") + (("Content-Length: " + len) + "\r\n")))
  {
    var k, t, l, e := "Connection: close" + "\r\n", "Content-Type: ", "Content-Length: ", "\r\n";
    assert "Connection: close\r\nContent-Type: " == k + t;
    assert "\r\nContent-Length: " == e + l;
    Joins(x, k, t, ctype, e, l, len);
  }

  lemma Joins(x: string, k: string, t: string, c: string, e: string, l: string, n: string)
    ensures x + (k + t) + c + (e + l) + n + e == x + (k + (((t + c) + e) + ((l + n) + e)))
  {
    var a, b := (t + c) + e, (l + n) + e;
    calc {
      x + (k + t) + c + (e + l) + n + e;
      { Associate(x, k, t); Associate(x + k, t, c); }
      (x + k) + (t + c) + (e + l) + n + e;
      { Associate((x + k) + (t + c), e, l); Associate(x + k, t + c, e); }
      (x + k) + a + l + n + e;
      { Associate((x + k) + a, l, n); Associate((x + k) + a, l + n, e); }
      (x + k) + a + b;
      { Associate(x + k, a, b); Associate(x, k, a + b); }
      x + (k + (a + b));
    }
  }

  lemma LinesAreLines(h: Head, common: seq<string>, extra: seq<string>)
    requires Plain(h, common, extra)
    ensures Lines(LinesOf(h, common, extra))
  {
    hide Shown, Reason, LineSafe;
    DigitsAreSafe(Shown(h.status));
    DigitsAreSafe(Shown(h.len));
    ReasonIsSafe(h.status);
    SafeJoined(" ", Reason(h.status));
    SafeJoined(Shown(h.status), " " + Reason(h.status));
    SafeJoined("HTTP/1.1 ", Shown(h.status) + (" " + Reason(h.status)));
    SafeJoined("Content-Type: ", h.ctype);
    SafeJoined("Content-Length: ", Shown(h.len));
    OwnWords();
  }

  lemma DigitsAreSafe(s: string)
    requires AllDigits(s)
    ensures LineSafe(s)
  {
  }

  lemma SafeJoined(a: string, b: string)
    ensures LineSafe(a) && LineSafe(b) ==> LineSafe(a + b)
  {
  }

  lemma OwnWords()
    ensures LineSafe("HTTP/1.1 ") && LineSafe(" ") && LineSafe("Content-Type: ") && LineSafe("Content-Length: ")
    ensures LineSafe("Connection: close")
  {
  }

  lemma ReasonIsSafe(status: nat)
    ensures LineSafe(Reason(status))
  {
    hide LineSafe;
    ShortWords();
    MiddleWords();
    TwoWords();
    LongWords();
    LongestWord();
    HeaderWords();
  }

  lemma ShortWords()
    ensures LineSafe("Continue") && LineSafe("OK") && LineSafe("Created") && LineSafe("Error")
    ensures LineSafe("Not Found") && LineSafe("Conflict")
  {
  }

  lemma MiddleWords()
    ensures LineSafe("Bad Request") && LineSafe("URI Too Long") && LineSafe("Length Required")
  {
  }

  lemma TwoWords()
    ensures LineSafe("Not Implemented") && LineSafe("Content Too Large")
  {
  }

  lemma LongWords()
    ensures LineSafe("Method Not Allowed") && LineSafe("Service Unavailable")
  {
  }

  lemma LongestWord()
    ensures LineSafe("Internal Server Error")
  {
  }

  lemma HeaderWords()
    ensures LineSafe("Request Header " + "Fields Too Large")
  {
    assert LineSafe("Request Header ");
    assert LineSafe("Fields Too Large");
    SafeJoined("Request Header ", "Fields Too Large");
  }

  lemma StatusReads(h: Head)
    ensures StatusOf(StatusLine(h)) == Some(h.status) && "HTTP/1.1 " <= StatusLine(h)
  {
    hide Reason, Shown, StatusOf;
    FirstNumber("HTTP/1.1", Shown(h.status), " " + Reason(h.status));
    assert StatusLine(h) == "HTTP/1.1" + ([' '] + (Shown(h.status) + (" " + Reason(h.status))));
    ShownIsDecimal(h.status);
  }

  lemma FirstNumber(a: string, ds: string, b: string)
    requires ' ' !in a && AllDigits(ds) && ds != "" && (b != "" ==> !IsDigit(b[0]))
    ensures StatusOf(a + ([' '] + (ds + b))) == Some(Decimal(ds))
  {
    hide Digits, Decimal, IndexOf;
    IndexAfter(a, ' ', ds + b);
    DigitsBefore(ds, b);
  }

  /** Of the answer's own lines, and of its status line. */
  lemma OwnValues(h: Head)
    requires LineSafe(h.ctype)
    ensures ValuesOf(OwnLines(h), "content-length") == [Shown(h.len)]
    ensures ValuesOf(OwnLines(h), "content-type") == [SkipBlanks(h.ctype)]
    ensures ValuesOf(OwnLines(h), "connection") == ["close"]
    ensures forall name :: name in {"content-length", "content-type", "connection"} ==>
              ValuesOf([StatusLine(h)], name) == []
  {
    hide ValueOf, SkipBlanks, Shown, Reason, StatusLine, ValuesOf, AnyCase;
    var own := OwnLines(h);
    Spelled();
    LengthIsSafe(h.len);
    SkipNone("close");
    SkipNone(Shown(h.len));
    forall name | name in {"content-length", "content-type", "connection"}
      ensures ValuesOf([StatusLine(h)], name) == []
      ensures ValueOf(own[0], name) == if name == "connection" then Some("close") else None
      ensures ValueOf(own[1], name) == if name == "content-type" then Some(SkipBlanks(h.ctype)) else None
      ensures ValueOf(own[2], name) == if name == "content-length" then Some(Shown(h.len)) else None
    {
      NotStatusLine(h, name);
      OwnValue("Connection", "close", name);
      assert own[0] == "Connection" + ": " + "close";
      OwnValue("Content-Type", h.ctype, name);
      assert own[1] == "Content-Type" + ": " + h.ctype;
      OwnValue("Content-Length", Shown(h.len), name);
      assert own[2] == "Content-Length" + ": " + Shown(h.len);
    }
    ThreeValues(own[0], own[1], own[2], "content-length");
    ThreeValues(own[0], own[1], own[2], "content-type");
    ThreeValues(own[0], own[1], own[2], "connection");
  }

  lemma ThreeValues(a: string, b: string, c: string, name: string)
    ensures ValuesOf([a, b, c], name) == OneValue(a, name) + OneValue(b, name) + OneValue(c, name)
  {
    assert [a, b, c][1..] == [b, c] && [b, c][1..] == [c] && [c][1..] == [];
    assert ValuesOf([c], name) == OneValue(c, name) + [];
  }

  function OneValue(l: string, name: string): seq<string> {
    if ValueOf(l, name).Some? then [ValueOf(l, name).value] else []
  }

  lemma LengthIsSafe(n: nat)
    ensures '\0' !in Shown(n) && !IsBlank(Shown(n)[0])
  {
    assert Shown(n)[0] in Shown(n);
  }

  lemma NotStatusLine(h: Head, name: string)
    requires name in {"content-length", "content-type", "connection"}
    ensures ValuesOf([StatusLine(h)], name) == []
  {
    hide Shown, Reason;
    var s := StatusLine(h);
    assert s[0] == 'H' && CString(s)[0] == 'H';
    assert Lower('H') == 'h' && name[0] == 'c';
  }

  lemma OwnValue(name: string, v: string, of: string)
    requires ':' !in name && '\0' !in name && '\0' !in v && ':' !in of
    ensures ValueOf(name + ": " + v, of) == if AnyCase(name, of) then Some(SkipBlanks(v)) else None
  {
    hide ValueOf;
    ValueByName(name, " " + v, of);
    assert name + ": " + v == name + ([':'] + (" " + v));
    assert (" " + v)[1..] == v;
  }

  /** The names as they are written are those names. */
  lemma Spelled()
    ensures AnyCase("Connection", "connection") && AnyCase("Content-Type", "content-type")
    ensures AnyCase("Content-Length", "content-length")
    ensures !AnyCase("Connection", "content-type") && !AnyCase("Connection", "content-length")
    ensures !AnyCase("Content-Type", "connection") && !AnyCase("Content-Type", "content-length")
    ensures !AnyCase("Content-Length", "connection") && !AnyCase("Content-Length", "content-type")
  {
  }

  /** Whatever follows it, the header block is read back: a status line of HTTP/1.1
      with the status, the caller's lines where they were put, one type, one
      length, the one promised or one the parser calls too large, the word to
      close, and an empty line that ends them. */
  lemma BlockReads(h: Head, common: seq<string>, extra: seq<string>, rest: string)
    requires Plain(h, common, extra)
    ensures HeadOf(HeaderBlock(h) + rest).Some?
    ensures var read := HeadOf(HeaderBlock(h) + rest).value;
            && read.rest == rest && |read.lines| == |common| + |extra| + 4
            && "HTTP/1.1 " <= read.lines[0] && StatusOf(read.lines[0]) == Some(h.status)
            && ValuesAre(read.lines, "content-length", common, [Shown(h.len)], extra)
            && ValuesAre(read.lines, "content-type", common, [SkipBlanks(h.ctype)], extra)
            && ValuesAre(read.lines, "connection", common, ["close"], extra)
    ensures ParsedLength(Shown(h.len)) == if h.len <= LENGTH_MAX then Length.Length(h.len) else TooLarge
  {
    hide HeaderBlock, StatusLine, OwnLines, AsLines, HeadOf, StatusOf, SkipBlanks, ParsedLength, ValuesOf;
    var lines := LinesOf(h, common, extra);
    BlockIsLines(h, common, extra);
    LinesAreLines(h, common, extra);
    LinesReadBack(lines, rest);
    assert HeaderBlock(h) + rest == AsLines(lines) + ("\r\n" + rest);
    StatusReads(h);
    OwnValues(h);
    ValuesOfLines(h, common, extra, "content-length");
    ValuesOfLines(h, common, extra, "content-type");
    ValuesOfLines(h, common, extra, "connection");
    AnnouncedLengthReads(h.len);
    LinesCount(h, common, extra);
  }

  lemma LinesCount(h: Head, common: seq<string>, extra: seq<string>)
    ensures var lines := LinesOf(h, common, extra);
            |lines| == |common| + |extra| + 4 && lines[0] == StatusLine(h)
  {
    hide StatusLine;
  }

  /** The values of a name: those of the lines before, its own, those of the lines
      after. */
  predicate ValuesAre(lines: seq<string>, name: string, before: seq<string>, own: seq<string>, after: seq<string>) {
    ValuesOf(lines, name) == ValuesOf(before, name) + own + ValuesOf(after, name)
  }

  lemma ValuesOfLines(h: Head, common: seq<string>, extra: seq<string>, name: string)
    requires ValuesOf([StatusLine(h)], name) == []
    ensures ValuesAre(LinesOf(h, common, extra), name, common, ValuesOf(OwnLines(h), name), extra)
  {
    hide StatusLine, OwnLines, ValuesOf;
    ValuesAppend(OwnLines(h), extra, name);
    ValuesAppend(common, OwnLines(h) + extra, name);
    ValuesAppend([StatusLine(h)], common + (OwnLines(h) + extra), name);
  }

  /** No line of the caller's has a length. */
  predicate NoLength(lines: seq<string>) {
    forall l :: l in lines ==> ValueOf(l, "content-length").None?
  }

  lemma {:induction false} NoValues(lines: seq<string>)
    requires NoLength(lines)
    ensures ValuesOf(lines, "content-length") == []
  {
    hide ValueOf;
    if lines != [] {
      assert lines[0] in lines;
      NoValues(lines[1..]);
    }
  }

  /** What an answer's text must say of it: its status, one length, the promised
      one or one too large for the parser, and a body of that length, or, to HEAD,
      of none. */
  predicate SaysOf(a: Read, status: nat, len: u32, headOnly: bool) {
    && a.lines != [] && StatusOf(a.lines[0]) == Some(status)
    && |ValuesOf(a.lines, "content-length")| == 1
    && (var n := ParsedLength(ValuesOf(a.lines, "content-length")[0]);
        && n == (if len <= LENGTH_MAX then Length.Length(len) else TooLarge)
        && |a.rest| == (if headOnly then 0 else len)
        && (!headOnly && n.Length? ==> |a.rest| == n.n))
  }

  /** Any whole response, its interim answer passed over, reads as what was begun:
      its status, its one length, and exactly that much body. */
  lemma WholeReads(r: Reply, g: Story, text: string, common: seq<string>, extra: seq<string>)
    requires WholeResponse(r, g, text) && g.interim in {"", CONTINUE} && g.head.status != 100
    requires Plain(g.head, common, extra) && NoLength(common) && NoLength(extra)
    ensures Answered(text).Some?
    ensures SaysOf(Answered(text).value, g.head.status, g.head.len, r.headOnly)
    ensures Answered(text).value.rest == g.body
  {
    hide HeaderBlock, HeadOf, StatusOf, ValuesOf, ParsedLength, Shown;
    var block := HeaderBlock(g.head) + g.body;
    BlockReads(g.head, common, extra, g.body);
    NoValues(common);
    NoValues(extra);
    assert Answered(block) == HeadOf(block);
    if g.interim == "" {
      assert text == block;
    } else {
      InterimReads(block);
      assert text == CONTINUE + block;
      assert Answered(text) == Answered(block);
    }
  }

  lemma InterimReads(after: string)
    ensures HeadOf(CONTINUE + after) == Some(Read([INTERIM_LINE], after))
    ensures StatusOf(INTERIM_LINE) == Some(100)
  {
    hide HeadOf, AsLines, StatusOf;
    OneLine(INTERIM_LINE);
    InterimStatus();
    assert LineSafe(INTERIM_LINE);
    LinesReadBack([INTERIM_LINE], after);
    assert CONTINUE == (INTERIM_LINE + "\r\n") + "\r\n";
    Associate(INTERIM_LINE + "\r\n", "\r\n", after);
  }

  const INTERIM_LINE := "HTTP/1.1 100 Continue"

  lemma InterimStatus()
    ensures StatusOf(INTERIM_LINE) == Some(100)
  {
    hide StatusOf, Decimal, Digits;
    FirstNumber("HTTP/1.1", "100", " Continue");
    assert INTERIM_LINE == "HTTP/1.1" + ([' '] + ("100" + " Continue"));
    Hundred();
  }

  lemma Hundred()
    ensures Decimal("100") == 100
  {
    assert "100"[..2] == "10" && "10"[..1] == "1" && "1"[..0] == "";
    assert Decimal("1") == 1;
    assert Decimal("10") == 10;
  }

  /** So does the text of an exchange that is done. */
  lemma DoneReads(r: Reply, g: Story, common: seq<string>, extra: seq<string>)
    requires Framed(r, g) && r.done && g.interim in {"", CONTINUE} && g.head.status != 100
    requires Plain(g.head, common, extra) && NoLength(common) && NoLength(extra)
    ensures Answered(g.written).Some?
    ensures SaysOf(Answered(g.written).value, g.head.status, g.head.len, r.headOnly)
    ensures g.whole.Some? && !r.headOnly ==> Answered(g.written).value.rest == g.whole.value
  {
    hide Framed, Answered, SaysOf, Plain, NoLength, HeaderBlock;
    DoneIsWhole(r, g);
    WholeReads(r, g, g.written, common, extra);
  }
}
