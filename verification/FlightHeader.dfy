/** The flight log's header record (src/flight_log.c:48-74, 156-194). */
module FlightHeader {
  import opened Wrappers
  import opened Words
  import opened Decimals
  import opened FlightRecords
  import ConfigNames

  const FLOG_MAGIC: seq<byte> := ['P' as int, 'Y' as int, 'L' as int, '2' as int]
  const FLOG_MAGIC_V1: seq<byte> := ['P' as int, 'Y' as int, 'L' as int, '1' as int]
  const REC_HEADER: byte := 'H' as int
  const PLAN_EVERY_SAMPLE: byte := 2
  const HDR_FIXED_V1 := 30
  const HDR_FIXED := 39

  datatype Pyro = Pyro(mode: byte, value: u16)

  /** Strings are C buffers: their text ends at the first NUL or with the buffer. */
  datatype Header = Header(board: seq<byte>, id: seq<byte>, name: seq<byte>, pyro1: Pyro, pyro2: Pyro,
                           units: byte, groundPa: i32, estimator: seq<byte>, modelDecides: bool)

  /** A C string's text, at most n of it. */
  function UpTo(s: seq<byte>, n: nat): (r: seq<byte>)
    ensures |r| <= n && r <= s && 0 !in r
  {
    if n == 0 || s == [] || s[0] == 0 then [] else [s[0]] + UpTo(s[1..], n - 1)
  }

  /** A scan that stops at the limit, the end or a NUL has passed exactly that text. */
  lemma {:induction false} ScanIsUpTo(s: seq<byte>, n: nat, i: nat)
    requires i <= n && i <= |s| && 0 !in s[..i] && (i == n || i == |s| || s[i] == 0)
    ensures UpTo(s, n) == s[..i]
    decreases n
  {
    if i > 0 {
      assert s[..i][0] != 0;
      assert s[1..][..i - 1] == s[..i][1..];
      ScanIsUpTo(s[1..], n - 1, i - 1);
    }
  }

  function Zeros(n: nat): (z: seq<byte>)
    ensures |z| == n && forall i :: 0 <= i < n ==> z[i] == 0
  {
    seq(n, i => 0)
  }

  /** An eight-byte field holding a string. */
  function Str8(s: seq<byte>): (b: seq<byte>)
    ensures |b| == 8
  {
    UpTo(s, 8) + Zeros(8 - |UpTo(s, 8)|)
  }

  lemma {:induction false} UpToPadded(t: seq<byte>, z: nat, n: nat)
    requires 0 !in t && |t| <= n && (z > 0 || |t| == n)
    ensures UpTo(t + Zeros(z), n) == t
  {
    if t == [] {
      assert t + Zeros(z) == Zeros(z);
    } else {
      UpToPadded(t[1..], z, n - 1);
      assert (t + Zeros(z))[1..] == t[1..] + Zeros(z);
    }
  }

  lemma UpToStr8(s: seq<byte>)
    ensures UpTo(Str8(s), 8) == UpTo(s, 8)
  {
    UpToPadded(UpTo(s, 8), 8 - |UpTo(s, 8)|, 8);
  }

  /* ---- What is written ---- */

  function PyroBytes(p: Pyro): (b: seq<byte>)
    ensures |b| == 3
  {
    [p.mode] + Put16(p.value)
  }

  function Flag(b: bool): byte {
    if b then 1 else 0
  }

  /** The record past its type and length, the board's name left out. */
  function FixedBytes(h: Header): (b: seq<byte>)
    ensures |b| == HDR_FIXED - 2
  {
    Str8(h.id) + Str8(h.name) + SettingsBytes(h) + Str8(h.estimator) + [Flag(h.modelDecides)]
  }

  function SettingsBytes(h: Header): (b: seq<byte>)
    ensures |b| == 12
  {
    PyroBytes(h.pyro1) + PyroBytes(h.pyro2) + [h.units] + Put32(Wrap(h.groundPa)) + [PLAN_EVERY_SAMPLE]
  }

  function BoardOf(h: Header): (b: seq<byte>)
    ensures |b| <= FLOG_BOARD_MAX && 0 !in b
  {
    UpTo(h.board, FLOG_BOARD_MAX)
  }

  function HeaderBytes(h: Header): (b: seq<byte>)
    ensures |b| == 4 + HDR_FIXED + |BoardOf(h)| && 0 < |b|
  {
    FLOG_MAGIC + [REC_HEADER, HDR_FIXED - 2 + |BoardOf(h)|] + FixedBytes(h) + BoardOf(h)
  }

  /* ---- What is read ---- */

  /** The header a record's body says; version 1 names no estimator. */
  function HeaderAt(b: seq<byte>, fixed: nat): (h: Header)
    requires (fixed == HDR_FIXED || fixed == HDR_FIXED_V1) && fixed - 2 <= |b| <= fixed - 2 + FLOG_BOARD_MAX
    ensures |h.board| <= FLOG_BOARD_MAX && |h.id| <= 8 && |h.name| <= 8 && |h.estimator| <= 8
  {
    Header(UpTo(b[fixed - 2..], FLOG_BOARD_MAX), UpTo(b[..8], 8), UpTo(b[8..16], 8),
           Pyro(b[16], Get16(b, 17)), Pyro(b[19], Get16(b, 20)), b[22], Signed(Get32(b, 23)),
           if fixed == HDR_FIXED then UpTo(b[28..36], 8) else [], fixed == HDR_FIXED && b[36] != 0)
  }

  function UnitsShown(u: byte): (s: string)
    ensures |s| <= 2
  {
    if u == 2 then "ft" else if u == 1 then "m" else "cm"
  }

  function PyroShown(p: Pyro): string {
    ConfigNames.ModeName(p.mode) + (" " + Shown(p.value))
  }

  function Labelled(name: string, value: string): (s: string)
    ensures |s| == |name| + |value| + 1
  {
    name + (value + "\n")
  }

  function TextLines(lines: seq<(string, string)>): string {
    if lines == [] then "" else Labelled(lines[0].0, lines[0].1) + TextLines(lines[1..])
  }

  function CommonLines(h: Header): seq<(string, string)> {
    [("# ", Chars(h.board) + " Flight Data"), ("# ID: ", Chars(h.id)), ("# Name: ", Chars(h.name)),
     ("# Pyro1: ", PyroShown(h.pyro1)), ("# Pyro2: ", PyroShown(h.pyro2)), ("# Units: ", UnitsShown(h.units)),
     ("# Ground Pa: ", ShownSigned(h.groundPa)), ("# Log rate: ", "every sample")]
  }

  function DeciderLines(h: Header): seq<(string, string)> {
    [("# Estimator: ", Chars(h.estimator)),
     ("# Apogee decided by: ", if h.modelDecides then "estimator" else "simple filter")]
  }

  const COLUMN_NAMES := "time_ms,pressure_pa,altitude_cm," + "state,thrust,raw_pa,temp_c,event"
  const COLUMNS := COLUMN_NAMES + "\n"

  function HeaderText(h: Header, fixed: nat): string {
    TextLines(CommonLines(h)) + ((if fixed == HDR_FIXED then TextLines(DeciderLines(h)) else "") + COLUMNS)
  }

  /** The header's text and length, unless the log ends inside it or is none. */
  function RenderedHead(b: seq<byte>): (r: Option<(string, nat)>)
    ensures r.Some? ==> r.value.0 != "" && 0 < r.value.1 <= |b|
  {
    if |b| < 4 then None
    else if b[..4] == FLOG_MAGIC then RenderedBody(b, HDR_FIXED)
    else if b[..4] == FLOG_MAGIC_V1 then RenderedBody(b, HDR_FIXED_V1)
    else None
  }

  function RenderedBody(b: seq<byte>, fixed: nat): (r: Option<(string, nat)>)
    requires |b| >= 4 && (fixed == HDR_FIXED || fixed == HDR_FIXED_V1)
    ensures r.Some? ==> r.value.0 != "" && 0 < r.value.1 <= |b|
  {
    if |b| < 6 || b[4] != REC_HEADER || !(fixed - 2 <= b[5] <= fixed - 2 + FLOG_BOARD_MAX) || |b| < 6 + b[5] then None
    else Some((HeaderText(HeaderAt(b[6..6 + b[5]], fixed), fixed), 6 + b[5]))
  }

  /** All the text of a log. */
  function LogText(b: seq<byte>): string {
    match RenderedHead(b)
    case None => ""
    case Some((head, n)) => head + RowsText(b[n..])
  }

  /* ---- The header comes back ---- */

  /** A header as the log keeps it: each string cut to its field. */
  function Kept(h: Header): Header {
    h.(board := BoardOf(h), id := UpTo(h.id, 8), name := UpTo(h.name, 8), estimator := UpTo(h.estimator, 8))
  }

  lemma HeaderComesBack(h: Header)
    ensures HeaderAt(FixedBytes(h) + BoardOf(h), HDR_FIXED) == Kept(h)
  {
    hide UpTo, Str8;
    var b := FixedBytes(h) + BoardOf(h);
    assert b[..8] == Str8(h.id) && b[8..16] == Str8(h.name) && b[28..36] == Str8(h.estimator);
    assert b[17..19] == Put16(h.pyro1.value) && b[20..22] == Put16(h.pyro2.value);
    assert b[23..27] == Put32(Wrap(h.groundPa));
    assert b[HDR_FIXED - 2..] == BoardOf(h);
    Get16Put(b, 17, h.pyro1.value);
    Get16Put(b, 20, h.pyro2.value);
    Get32Put(b, 23, Wrap(h.groundPa));
    SignedWrap(h.groundPa);
    UpToStr8(h.id);
    UpToStr8(h.name);
    UpToStr8(h.estimator);
    BoardAgain(h);
  }

  lemma BoardAgain(h: Header)
    ensures UpTo(BoardOf(h), FLOG_BOARD_MAX) == BoardOf(h)
  {
    var t := BoardOf(h);
    assert t[..|t|] == t;
    ScanIsUpTo(t, FLOG_BOARD_MAX, |t|);
  }

  lemma HeaderRenders(h: Header, rest: seq<byte>)
    ensures RenderedHead(HeaderBytes(h) + rest) == Some((HeaderText(Kept(h), HDR_FIXED), |HeaderBytes(h)|))
  {
    hide HeaderAt, HeaderText, Kept, FixedBytes, BoardOf;
    var b := HeaderBytes(h) + rest;
    HeaderComesBack(h);
    assert b[..4] == FLOG_MAGIC;
    assert b[6..6 + b[5]] == FixedBytes(h) + BoardOf(h);
  }

  lemma CutHeaderEnds(h: Header, k: nat)
    requires k < |HeaderBytes(h)|
    ensures RenderedHead(HeaderBytes(h)[..k]) == None
  {
    hide HeaderAt, HeaderText, Kept, FixedBytes, BoardOf;
    var b := HeaderBytes(h)[..k];
    if k >= 4 {
      assert b[..4] == FLOG_MAGIC;
      assert k > 5 ==> b[5] == HDR_FIXED - 2 + |BoardOf(h)|;
    }
  }

  function LogBytes(h: Header, rs: seq<Record>): seq<byte> {
    HeaderBytes(h) + Stream(rs)
  }

  /** Whatever byte power is lost at, the log reads as its header and exactly the
      records wholly written, or as nothing when the header is cut. */
  lemma CutLog(h: Header, rs: seq<Record>, k: nat)
    requires k <= |LogBytes(h, rs)|
    ensures var n := |HeaderBytes(h)|;
            LogText(LogBytes(h, rs)[..k]) ==
            if k < n then "" else HeaderText(Kept(h), HDR_FIXED) + RowsOf(rs[..Whole(rs, k - n)])
  {
    hide HeaderBytes, HeaderText, RenderedHead, Kept, RowsText, Stream, RowsOf, Whole;
    var n := |HeaderBytes(h)|;
    var b := LogBytes(h, rs)[..k];
    if k < n {
      assert b == HeaderBytes(h)[..k];
      CutHeaderEnds(h, k);
    } else {
      var rest := Stream(rs)[..k - n];
      assert b == HeaderBytes(h) + rest;
      HeaderRenders(h, rest);
      assert b[n..] == rest;
      CutStream(rs, k - n);
    }
  }

  /* ---- Lines fit the reader's buffer ---- */

  lemma CommonFits(h: Header)
    requires |h.board| <= FLOG_BOARD_MAX && |h.id| <= 8 && |h.name| <= 8
    ensures 0 < |TextLines(CommonLines(h))| <= 185
  {
    hide Shown, ConfigNames.ModeName, ShownSigned, TextLines;
    WordIsShort(h.pyro1.value);
    FiveDigits(h.pyro1.value);
    FiveDigits(h.pyro2.value);
    SignedIsShort(h.groundPa);
    EightLines(CommonLines(h));
  }

  lemma EightLines(l: seq<(string, string)>)
    requires |l| == 8
    ensures |TextLines(l)| == |l[0].0| + |l[0].1| + |l[1].0| + |l[1].1| + |l[2].0| + |l[2].1| + |l[3].0| + |l[3].1|
                              + |l[4].0| + |l[4].1| + |l[5].0| + |l[5].1| + |l[6].0| + |l[6].1| + |l[7].0| + |l[7].1|
                              + 8
  {
    hide TextLines;
    LinesLength(l);
    LinesLength(l[1..]);
    LinesLength(l[2..]);
    LinesLength(l[3..]);
    LinesLength(l[4..]);
    LinesLength(l[5..]);
    LinesLength(l[6..]);
    LinesLength(l[7..]);
    LinesLength(l[8..]);
  }

  lemma LinesLength(l: seq<(string, string)>)
    ensures |TextLines(l)| == if l == [] then 0 else |l[0].0| + |l[0].1| + 1 + |TextLines(l[1..])|
  {
  }

  lemma FiveDigits(v: u16)
    ensures |Shown(v)| <= 5
  {
    assert Pow10(3) == 1000;
    assert Pow10(5) == 100_000;
    ShownIsShort(v, 5);
  }

  lemma SignedIsShort(v: i32)
    ensures |ShownSigned(v)| <= 11
  {
    WordIsShort(Magnitude(v));
  }

  lemma DeciderFits(h: Header)
    requires |h.estimator| <= 8
    ensures 0 < |TextLines(DeciderLines(h))| <= 57
  {
    hide TextLines;
    var l := DeciderLines(h);
    LinesLength(l);
    LinesLength(l[1..]);
    LinesLength(l[2..]);
  }
}
