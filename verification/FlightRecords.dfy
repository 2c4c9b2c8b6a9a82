/** The flight log's records (src/flight_log.c): their bytes, the encoders that
    write them, the row of text each stands for, and what is read back from a
    log cut anywhere. */
module FlightRecords {
  import opened Wrappers
  import opened Words
  import opened Decimals
  import opened Rows
  import ConfigNames

  const FLOG_SAMPLE_BYTES := 22
  const FLOG_TEXT_MAX := 64
  const FLOG_BOARD_MAX := 32
  const FLOG_LINE_MAX := 384
  const TEXT_FIXED := 7

  const REC_SAMPLE: byte := 'S' as int
  const REC_TEXT: byte := 'T' as int

  type u16 = x: int | 0 <= x < 0x1_0000
  type i16 = x: int | -0x8000 <= x < 0x8000

  datatype Sample = Sample(time: i32, pressure: i32, altitude: i32, raw: i32, temp: i16,
                           state: byte, thrust: byte, event: byte)

  datatype Record = SampleRecord(s: Sample) | TextRecord(time: u32, tag: byte, text: seq<byte>)

  /* ---- Little-endian fields ---- */

  function Low(v: nat): byte {
    v % 256
  }

  function Put16(v: u16): (b: seq<byte>)
    ensures |b| == 2
  {
    [Low(v), Low(v / 256)]
  }

  function Put32(v: u32): (b: seq<byte>)
    ensures |b| == 4
  {
    [Low(v), Low(v / 256), Low(v / 0x1_0000), Low(v / 0x100_0000)]
  }

  function Get16(b: seq<byte>, p: nat): u16
    requires p + 2 <= |b|
  {
    var low: nat, high: nat := b[p], b[p + 1];
    low + 256 * high
  }

  function Get32(b: seq<byte>, p: nat): u32
    requires p + 4 <= |b|
  {
    Get16(b, p) + 0x1_0000 * Get16(b, p + 2)
  }

  lemma Get16Put(b: seq<byte>, p: nat, v: u16)
    requires p + 2 <= |b| && b[p..p + 2] == Put16(v)
    ensures Get16(b, p) == v
  {
    assert b[p] == b[p..p + 2][0] && b[p + 1] == b[p..p + 2][1];
  }

  lemma Get32Put(b: seq<byte>, p: nat, v: u32)
    requires p + 4 <= |b| && b[p..p + 4] == Put32(v)
    ensures Get32(b, p) == v
  {
    var f := b[p..p + 4];
    assert b[p] == f[0] && b[p + 1] == f[1] && b[p + 2] == f[2] && b[p + 3] == f[3];
    var high := v / 0x1_0000;
    assert v / 0x100_0000 == high / 256 && high / 256 < 256;
  }

  function Signed16(v: u16): i16 {
    if v < 0x8000 then v else v - 0x1_0000
  }

  function Wrap16(v: i16): u16 {
    if v >= 0 then v else v + 0x1_0000
  }

  /* ---- What is written ---- */

  function SampleBytes(s: Sample): (b: seq<byte>)
    ensures |b| == FLOG_SAMPLE_BYTES && b[0] == REC_SAMPLE
  {
    [REC_SAMPLE] + Put32(Wrap(s.time)) + Put32(Wrap(s.pressure)) + Put32(Wrap(s.altitude)) + Put32(Wrap(s.raw))
    + Put16(Wrap16(s.temp)) + [s.state, s.thrust, s.event]
  }

  /** What a text keeps of a character: no comma, no control character. */
  function Cleaned(c: byte): (r: byte)
    ensures 0x20 <= r < 0x7f && r != ',' as int
    ensures r == (if 0x20 <= c < 0x7f && c != ',' as int then c else ' ' as int)
  {
    if c == ',' as int || c < 0x20 || c >= 0x7f then ' ' as int else c
  }

  function CleanedText(text: seq<byte>): (r: seq<byte>)
    ensures |r| <= FLOG_TEXT_MAX
    ensures forall c :: c in r ==> 0x20 <= c < 0x7f && c != ',' as int
  {
    seq(if |text| <= FLOG_TEXT_MAX then |text| else FLOG_TEXT_MAX, i requires 0 <= i < |text| => Cleaned(text[i]))
  }

  /** A text is kept up to its limit, character for character but for commas and
      what is not printable, which are blanks: so a plain one that fits is kept
      as it is. */
  lemma PlainTextKept(text: seq<byte>)
    ensures |CleanedText(text)| == if |text| > FLOG_TEXT_MAX then FLOG_TEXT_MAX else |text|
    ensures forall i :: 0 <= i < |CleanedText(text)| ==>
              CleanedText(text)[i] == (if 0x20 <= text[i] < 0x7f && text[i] != ',' as int then text[i] else ' ' as int)
    ensures (forall c :: c in text ==> 0x20 <= c < 0x7f && c != ',' as int) ==>
              CleanedText(text) == text[..|CleanedText(text)|]
  {
    hide Cleaned;
    var r := CleanedText(text);
    forall i | 0 <= i < |r|
      ensures r[i] == Cleaned(text[i]) && text[i] in text
    {
    }
  }

  function TextBytes(time: u32, tag: byte, clean: seq<byte>): (b: seq<byte>)
    requires |clean| <= FLOG_TEXT_MAX
    ensures |b| == TEXT_FIXED + |clean| && b[0] == REC_TEXT
  {
    [REC_TEXT] + Put32(time) + [tag, |clean|] + clean
  }

  function RecordBytes(r: Record): (b: seq<byte>)
    ensures b != []
  {
    match r
    case SampleRecord(s) => SampleBytes(s)
    case TextRecord(time, tag, text) => TextBytes(time, tag, CleanedText(text))
  }

  /* ---- The row a record stands for ---- */

  function Chars(b: seq<byte>): (s: string)
    ensures |s| == |b| && forall i :: 0 <= i < |b| ==> s[i] == b[i] as char
  {
    seq(|b|, i requires 0 <= i < |b| => b[i] as char)
  }

  /** A temperature in tenths of a degree, its sign kept below one degree. */
  function Tenths(t: int): string {
    (if t < 0 then "-" else "") + (Shown(Magnitude(t) / 10) + ("." + [DigitOf(Magnitude(t) % 10)]))
  }

  function Magnitude(t: int): nat {
    if t < 0 then -t else t
  }

  /** The names of the tags and of the events, by their codes. */
  const TAG_NAMES: seq<string> := ["LUA", "MOCK", "EST"]

  const EVENT_NAMES: seq<string> := [
    "", "LAUNCH", "APOGEE", "PYRO1", "PYRO2", "LOCK", "UNLOCK", "LANDING", "LOCK_FALLBACK", "ARMED", "SENSOR_STUCK",
    "PYRO1_FAULT", "PYRO2_FAULT", "PYRO1_NOPEN", "PYRO2_NOPEN", "PYRO1_REFUSED", "PYRO2_REFUSED", "MAIN_FORCED",
    "SENSOR_LOST", "PYRO1_REFIRE", "PYRO2_REFIRE", "EMERGENCY_FIRE", "RESUMED", "PEAK", "PEAK_AT_LEAST"
  ]

  function TagName(tag: byte): (s: string)
    ensures 3 <= |s| <= 4 && ',' !in s && '\n' !in s
  {
    if tag < |TAG_NAMES| then TAG_NAMES[tag] else "TEXT"
  }

  function EventName(e: byte): (s: string)
    ensures |s| <= 14 && ',' !in s && '\n' !in s
  {
    if e < |EVENT_NAMES| then EVENT_NAMES[e] else ""
  }

  const EVT_LAUNCH := 1
  const EVT_APOGEE := 2
  const EVT_PYRO1_FIRE := 3
  const EVT_PYRO2_FIRE := 4
  const EVT_LANDING := 7
  const EVT_ARMED := 9
  const EVT_SENSOR_STUCK := 10
  const EVT_SENSOR_LOST := 18
  const EVT_EMERGENCY_FIRE := 21
  const EVT_RESUMED := 22
  const EVT_PEAK := 23

  /** No two events share a name, nor two tags: a reader finds each by it. */
  lemma NamesTellApart(e: byte, f: byte)
    ensures EventName(e) == EventName(f) && EventName(e) != "" ==> e == f
    ensures EventName(e) == "" <==> e == 0 || e > 24
    ensures TagName(e) == TagName(f) ==> e == f || (e > 2 && f > 2)
  {
    if e < |EVENT_NAMES| && f < |EVENT_NAMES| && e != f {
      NamesDiffer(if e < f then e else f, if e < f then f else e);
    }
  }

  lemma NamesDiffer(i: nat, j: nat)
    requires i < j < |EVENT_NAMES|
    ensures EVENT_NAMES[i] != EVENT_NAMES[j]
  {
  }

  /** The events a flight is told by carry the names that are looked for. */
  lemma FlightIsTold()
    ensures EventName(EVT_LAUNCH) == "LAUNCH" && EventName(EVT_APOGEE) == "APOGEE"
    ensures EventName(EVT_PYRO1_FIRE) == "PYRO1" && EventName(EVT_PYRO2_FIRE) == "PYRO2"
    ensures EventName(EVT_LANDING) == "LANDING" && EventName(EVT_ARMED) == "ARMED"
  {
  }

  /** So do those of its troubles. */
  lemma TroubleIsTold()
    ensures EventName(EVT_SENSOR_STUCK) == "SENSOR_STUCK" && EventName(EVT_SENSOR_LOST) == "SENSOR_LOST"
    ensures EventName(EVT_EMERGENCY_FIRE) == "EMERGENCY_FIRE" && EventName(EVT_RESUMED) == "RESUMED"
    ensures EventName(EVT_PEAK) == "PEAK"
  {
  }

  /** The columns: time_ms, pressure_pa, altitude_cm, state, thrust, raw_pa, temp_c, event. */
  function SampleFields(s: Sample): (fs: seq<string>)
    ensures |fs| == 8
  {
    [ShownSigned(s.time), ShownSigned(s.pressure), ShownSigned(s.altitude), Shown(s.state),
     Shown(s.thrust), ShownSigned(s.raw), Tenths(s.temp), EventName(s.event)]
  }

  function TextFields(time: u32, tag: byte, text: string): (fs: seq<string>)
    ensures |fs| == 8
  {
    [Shown(time), "", "", "", "", "", "", TagName(tag) + (" " + text)]
  }

  function RecordFields(r: Record): (fs: seq<string>)
    ensures |fs| == 8
  {
    match r
    case SampleRecord(s) => SampleFields(s)
    case TextRecord(time, tag, text) => TextFields(time, tag, Chars(CleanedText(text)))
  }

  function RowOf(fields: seq<string>): (s: string)
    requires fields != []
    ensures s != ""
  {
    Join(fields, ',') + "\n"
  }

  /* ---- What is read ---- */

  function SampleAt(b: seq<byte>): Sample
    requires |b| >= FLOG_SAMPLE_BYTES
  {
    Sample(Signed(Get32(b, 1)), Signed(Get32(b, 5)), Signed(Get32(b, 9)), Signed(Get32(b, 13)), Signed16(Get16(b, 17)),
           b[19], b[20], b[21])
  }

  /** The row of the record a log goes on with and the record's length, unless
      the log ends inside it or it is none. */
  function Rendered(b: seq<byte>): (r: Option<(string, nat)>)
    ensures r.Some? ==> r.value.0 != "" && 0 < r.value.1 <= |b|
  {
    if b == [] then None
    else if b[0] == REC_SAMPLE then
      if |b| < FLOG_SAMPLE_BYTES then None else Some((RowOf(SampleFields(SampleAt(b))), FLOG_SAMPLE_BYTES))
    else if b[0] == REC_TEXT then
      if |b| < TEXT_FIXED || b[6] > FLOG_TEXT_MAX || |b| < TEXT_FIXED + b[6] then None
      else Some((RowOf(TextFields(Get32(b, 1), b[5], Chars(b[TEXT_FIXED..TEXT_FIXED + b[6]]))), TEXT_FIXED + b[6]))
    else None
  }

  /** All the rows of the records that follow. */
  function RowsText(b: seq<byte>): string
    decreases |b|
  {
    match Rendered(b)
    case None => ""
    case Some((row, n)) => row + RowsText(b[n..])
  }

  /* ---- Each record comes back as its row ---- */

  lemma SignedWrap(v: i32)
    ensures Signed(Wrap(v)) == v
  {
    if v < 0 {
      WrapUnique(v, v + 0x1_0000_0000, -1);
    }
  }

  lemma SampleComesBack(s: Sample, rest: seq<byte>)
    ensures SampleAt(SampleBytes(s) + rest) == s
  {
    var b := SampleBytes(s) + rest;
    assert b[1..5] == Put32(Wrap(s.time));
    assert b[5..9] == Put32(Wrap(s.pressure));
    assert b[9..13] == Put32(Wrap(s.altitude));
    assert b[13..17] == Put32(Wrap(s.raw));
    assert b[17..19] == Put16(Wrap16(s.temp));
    Get32Put(b, 1, Wrap(s.time));
    Get32Put(b, 5, Wrap(s.pressure));
    Get32Put(b, 9, Wrap(s.altitude));
    Get32Put(b, 13, Wrap(s.raw));
    Get16Put(b, 17, Wrap16(s.temp));
    SignedWrap(s.time);
    SignedWrap(s.pressure);
    SignedWrap(s.altitude);
    SignedWrap(s.raw);
  }

  lemma TextComesBack(time: u32, tag: byte, clean: seq<byte>, rest: seq<byte>)
    requires |clean| <= FLOG_TEXT_MAX
    ensures var b := TextBytes(time, tag, clean) + rest;
            Get32(b, 1) == time && b[5] == tag && b[6] == |clean| && b[TEXT_FIXED..TEXT_FIXED + |clean|] == clean
  {
    var b := TextBytes(time, tag, clean) + rest;
    assert b[1..5] == Put32(time);
    Get32Put(b, 1, time);
  }

  /** Whatever follows it, a record renders to its own row and no more is read. */
  lemma RecordRenders(r: Record, rest: seq<byte>)
    ensures Rendered(RecordBytes(r) + rest) == Some((RowOf(RecordFields(r)), |RecordBytes(r)|))
  {
    match r
    case SampleRecord(s) => SampleComesBack(s, rest);
    case TextRecord(time, tag, text) => TextComesBack(time, tag, CleanedText(text), rest);
  }

  /** A record cut short renders nothing. */
  lemma CutRecordEnds(r: Record, k: nat)
    requires k < |RecordBytes(r)|
    ensures Rendered(RecordBytes(r)[..k]) == None
  {
    match r
    case SampleRecord(s) =>
    case TextRecord(time, tag, text) => TextComesBack(time, tag, CleanedText(text), []);
  }

  /* ---- A log cut anywhere ---- */

  function Stream(rs: seq<Record>): seq<byte> {
    if rs == [] then [] else RecordBytes(rs[0]) + Stream(rs[1..])
  }

  function RowsOf(rs: seq<Record>): string {
    if rs == [] then "" else RowOf(RecordFields(rs[0])) + RowsOf(rs[1..])
  }

  /** How many of the records lie wholly inside the first k bytes. */
  function Whole(rs: seq<Record>, k: nat): (w: nat)
    ensures w <= |rs|
  {
    if rs == [] || k < |RecordBytes(rs[0])| then 0 else 1 + Whole(rs[1..], k - |RecordBytes(rs[0])|)
  }

  lemma {:induction false} WholeIsWhole(rs: seq<Record>, k: nat)
    ensures |Stream(rs[..Whole(rs, k)])| <= k
    ensures Whole(rs, k) < |rs| ==> k < |Stream(rs[..Whole(rs, k) + 1])|
  {
    hide RecordBytes;
    if rs != [] {
      var w := Whole(rs, k);
      var n := |RecordBytes(rs[0])|;
      if k < n {
        assert rs[..1][0] == rs[0];
      } else {
        WholeIsWhole(rs[1..], k - n);
        assert rs[..w][1..] == rs[1..][..w - 1];
        if w < |rs| {
          assert rs[..w + 1][1..] == rs[1..][..w];
        }
      }
    }
  }

  /** The rows of a log cut after k bytes are those of the records wholly inside. */
  lemma {:induction false} CutStream(rs: seq<Record>, k: nat)
    requires k <= |Stream(rs)|
    ensures RowsText(Stream(rs)[..k]) == RowsOf(rs[..Whole(rs, k)])
  {
    hide RecordBytes, Rendered, RowOf, RecordFields;
    if rs == [] {
      assert Stream(rs)[..k] == [];
    } else {
      var first := RecordBytes(rs[0]);
      var b := Stream(rs)[..k];
      if k < |first| {
        assert b == first[..k];
        CutRecordEnds(rs[0], k);
      } else {
        var rest := Stream(rs[1..])[..k - |first|];
        assert b == first + rest;
        RecordRenders(rs[0], rest);
        assert b[|first|..] == rest;
        CutStream(rs[1..], k - |first|);
        var w := Whole(rs, k);
        assert rs[..w][1..] == rs[1..][..w - 1];
      }
    }
  }

  /* ---- Rows of eight fields ---- */

  lemma DigitsAreField(s: string)
    requires AllDigits(s)
    ensures ',' !in s && '\n' !in s
  {
    assert !IsDigit(',') && !IsDigit('\n');
  }

  lemma CleanIsField(clean: seq<byte>)
    requires forall c :: c in clean ==> 0x20 <= c < 0x7f && c != ',' as int
    ensures ',' !in Chars(clean) && '\n' !in Chars(clean)
  {
    forall i | 0 <= i < |clean| ensures Chars(clean)[i] != ',' && Chars(clean)[i] != '\n' {
      assert clean[i] in clean;
    }
  }

  /** No field holds a comma or a line's end, whatever the record: a text cannot
      add a field or a row. */
  lemma FieldsAreFields(r: Record)
    ensures forall f :: f in RecordFields(r) ==> ',' !in f && '\n' !in f
  {
    hide Shown, EventName, TagName, Chars, CleanedText;
    match r
    case SampleRecord(s) =>
      DigitsAreField(Shown(Magnitude(s.time)));
      DigitsAreField(Shown(Magnitude(s.pressure)));
      DigitsAreField(Shown(Magnitude(s.altitude)));
      DigitsAreField(Shown(Magnitude(s.raw)));
      DigitsAreField(Shown(s.state));
      DigitsAreField(Shown(s.thrust));
      DigitsAreField(Shown(Magnitude(s.temp) / 10));
      DigitsAreField([DigitOf(Magnitude(s.temp) % 10)]);
    case TextRecord(time, tag, text) =>
      DigitsAreField(Shown(time));
      CleanIsField(CleanedText(text));
  }

  /** Each record's row splits back into exactly its eight fields, and only its
      end is a line's end. */
  lemma RowSplits(r: Record)
    ensures var row := RowOf(RecordFields(r));
            Split(row[..|row| - 1], ',') == RecordFields(r) && '\n' !in row[..|row| - 1] && row[|row| - 1] == '\n'
  {
    var fs := RecordFields(r);
    FieldsAreFields(r);
    SplitJoin(fs, ',');
    JoinLacks(fs, ',', '\n');
    assert RowOf(fs)[..|RowOf(fs)| - 1] == Join(fs, ',');
  }

  /** A number with one decimal, in tenths. */
  function ReadTenths(s: string): Option<int> {
    if |s| < 2 || s[|s| - 2] != '.' || !IsDigit(s[|s| - 1]) then None
    else match ReadSigned(s[..|s| - 2])
      case None => None
      case Some(whole) =>
        var d := DigitValue(s[|s| - 1]);
        if s[0] == '-' then Some(10 * whole - d) else Some(10 * whole + d)
  }

  lemma TenthsRoundTrip(t: int)
    ensures ReadTenths(Tenths(t)) == Some(t)
  {
    var m := Magnitude(t);
    var s := Tenths(t);
    assert s[..|s| - 2] == (if t < 0 then "-" else "") + Shown(m / 10);
    ShownIsDecimal(m / 10);
    if t < 0 {
      assert s[..|s| - 2][1..] == Shown(m / 10);
    } else {
      assert s[..|s| - 2] == Shown(m / 10);
      assert IsDigit(Shown(m / 10)[0]);
    }
  }

  /** What a sample's row says is what was written, sign and least value included. */
  lemma SampleRowReadsBack(s: Sample)
    ensures var row := RowOf(SampleFields(s));
            var fs := Split(row[..|row| - 1], ',');
            && |fs| == 8
            && ReadSigned(fs[0]) == Some(s.time) && ReadSigned(fs[1]) == Some(s.pressure)
            && ReadSigned(fs[2]) == Some(s.altitude) && ReadSigned(fs[3]) == Some(s.state)
            && ReadSigned(fs[4]) == Some(s.thrust) && ReadSigned(fs[5]) == Some(s.raw)
            && ReadTenths(fs[6]) == Some(s.temp) && fs[7] == EventName(s.event)
  {
    hide Split, Join, RowOf, ReadSigned, ReadTenths, Tenths, ShownSigned, EventName;
    RowSplits(SampleRecord(s));
    SignedRoundTrip(s.time);
    SignedRoundTrip(s.pressure);
    SignedRoundTrip(s.altitude);
    SignedRoundTrip(s.raw);
    TenthsRoundTrip(s.temp);
    UnsignedReadsBack(s.state);
    UnsignedReadsBack(s.thrust);
  }

  lemma UnsignedReadsBack(v: nat)
    ensures ReadSigned(Shown(v)) == Some(v)
  {
    SignedRoundTrip(v);
  }
}
