/** The flight log's encoders and its pull reader (src/flight_log.c). */
module FlightLog {
  import opened Wrappers
  import opened Words
  import opened Decimals
  import opened Rows
  import opened FlightRecords
  import opened FlightHeader

  /* ---- Encoders, into the start of an array ---- */

  method Put(dst: array<byte>, p: nat, field: seq<byte>) returns (next: nat)
    requires p + |field| <= dst.Length
    modifies dst
    ensures next == p + |field|
    ensures dst[..next] == old(dst[..p]) + field
    ensures forall i :: next <= i < dst.Length ==> dst[i] == old(dst[i])
  {
    forall i | 0 <= i < |field| {
      dst[p + i] := field[i];
    }
    next := p + |field|;
  }

  /** put_str8() */
  method PutStr8(dst: array<byte>, p: nat, s: seq<byte>) returns (next: nat)
    requires p + 8 <= dst.Length
    modifies dst
    ensures next == p + 8
    ensures dst[..next] == old(dst[..p]) + Str8(s)
    ensures forall i :: next <= i < dst.Length ==> dst[i] == old(dst[i])
  {
    hide UpTo;
    next := Put(dst, p, Zeros(8));
    assert forall j :: p <= j < next ==> dst[j] == dst[..next][j];
    var i: nat := 0;
    while i < 8 && i < |s| && s[i] != 0
      invariant i <= 8 && i <= |s| && 0 !in s[..i]
      invariant forall j :: 0 <= j < p || next <= j < dst.Length ==> dst[j] == old(dst[j])
      invariant dst[p..p + i] == s[..i]
      invariant forall j :: p + i <= j < next ==> dst[j] == 0
    {
      dst[p + i] := s[i];
      i := i + 1;
      assert dst[p..p + i] == dst[p..p + i - 1] + [s[i - 1]];
    }
    ScanIsUpTo(s, 8, i);
    assert dst[p..next] == Str8(s);
    assert dst[..next] == dst[..p] + dst[p..next];
  }

  /** flog_put_header() */
  method PutHeader(dst: array<byte>, cap: nat, h: Header) returns (n: nat)
    requires cap <= dst.Length
    modifies dst
    ensures if |HeaderBytes(h)| <= cap then n == |HeaderBytes(h)| && dst[..n] == HeaderBytes(h) else n == 0
    ensures forall i :: n <= i < dst.Length ==> dst[i] == old(dst[i])
  {
    hide Str8, UpTo;
    var board: nat := 0;
    while board < |h.board| && h.board[board] != 0 && board < FLOG_BOARD_MAX
      invariant board <= |h.board| && board <= FLOG_BOARD_MAX && 0 !in h.board[..board]
    {
      board := board + 1;
    }
    ScanIsUpTo(h.board, FLOG_BOARD_MAX, board);
    n := 4 + HDR_FIXED + board;
    if n > cap {
      return 0;
    }
    var p := Put(dst, 0, FLOG_MAGIC + [REC_HEADER, HDR_FIXED - 2 + board]);
    assert dst[..p] == FLOG_MAGIC + [REC_HEADER, HDR_FIXED - 2 + board];
    p := PutFixed(dst, p, h);
    p := Put(dst, p, h.board[..board]);
  }

  method PutFixed(dst: array<byte>, at: nat, h: Header) returns (next: nat)
    requires at + HDR_FIXED - 2 <= dst.Length
    modifies dst
    ensures next == at + HDR_FIXED - 2
    ensures dst[..next] == old(dst[..at]) + FixedBytes(h)
    ensures forall i :: next <= i < dst.Length ==> dst[i] == old(dst[i])
  {
    hide Str8, UpTo, Put16, Put32, PyroBytes;
    hide SettingsBytes;
    next := PutStr8(dst, at, h.id);
    next := PutStr8(dst, next, h.name);
    next := PutSettings(dst, next, h);
    next := PutStr8(dst, next, h.estimator);
    next := Put(dst, next, [Flag(h.modelDecides)]);
  }

  method PutSettings(dst: array<byte>, at: nat, h: Header) returns (next: nat)
    requires at + 12 <= dst.Length
    modifies dst
    ensures next == at + 12
    ensures dst[..next] == old(dst[..at]) + SettingsBytes(h)
    ensures forall i :: next <= i < dst.Length ==> dst[i] == old(dst[i])
  {
    hide Put16, Put32, PyroBytes;
    next := Put(dst, at, PyroBytes(h.pyro1));
    next := Put(dst, next, PyroBytes(h.pyro2));
    next := Put(dst, next, [h.units]);
    next := Put(dst, next, Put32(Wrap(h.groundPa)));
    next := Put(dst, next, [PLAN_EVERY_SAMPLE]);
  }

  /** flog_put_sample() */
  method PutSample(dst: array<byte>, cap: nat, s: Sample) returns (n: nat)
    requires cap <= dst.Length
    modifies dst
    ensures if cap >= FLOG_SAMPLE_BYTES then n == FLOG_SAMPLE_BYTES && dst[..n] == SampleBytes(s) else n == 0
    ensures forall i :: n <= i < dst.Length ==> dst[i] == old(dst[i])
  {
    hide Put16, Put32;
    if cap < FLOG_SAMPLE_BYTES {
      return 0;
    }
    n := Put(dst, 0, [REC_SAMPLE]);
    n := Put(dst, n, Put32(Wrap(s.time)));
    n := Put(dst, n, Put32(Wrap(s.pressure)));
    n := Put(dst, n, Put32(Wrap(s.altitude)));
    n := Put(dst, n, Put32(Wrap(s.raw)));
    n := Put(dst, n, Put16(Wrap16(s.temp)));
    n := Put(dst, n, [s.state, s.thrust, s.event]);
    assert dst[..n] == SampleBytes(s);
  }

  /** flog_put_text(): len is the caller's, and may be negative. */
  method PutText(dst: array<byte>, cap: nat, time: u32, tag: byte, text: seq<byte>, len: int) returns (n: nat)
    requires cap <= dst.Length && len <= |text|
    modifies dst
    ensures if len >= 0 && |TextBytes(time, tag, CleanedText(text[..len]))| <= cap then
              n <= dst.Length && dst[..n] == TextBytes(time, tag, CleanedText(text[..len]))
            else n == 0
    ensures forall i :: n <= i < dst.Length ==> dst[i] == old(dst[i])
  {
    hide Put32, Cleaned;
    var k := if len > FLOG_TEXT_MAX then FLOG_TEXT_MAX else len;
    if k < 0 || TEXT_FIXED + k > cap {
      return 0;
    }
    n := Put(dst, 0, [REC_TEXT]);
    n := Put(dst, n, Put32(time));
    n := Put(dst, n, [tag, k]);
    ghost var clean := CleanedText(text[..len]);
    assert dst[..n] == [REC_TEXT] + Put32(time) + [tag, k];
    var i: nat := 0;
    while i < k
      invariant i <= k && dst[..TEXT_FIXED] == [REC_TEXT] + Put32(time) + [tag, k]
      invariant forall j :: 0 <= j < i ==> dst[TEXT_FIXED + j] == clean[j]
      invariant forall j :: TEXT_FIXED + i <= j < dst.Length ==> dst[j] == old(dst[j])
    {
      dst[TEXT_FIXED + i] := Cleaned(text[i]);
      i := i + 1;
    }
    n := TEXT_FIXED + k;
    assert dst[..n] == dst[..TEXT_FIXED] + clean;
  }

  /* ---- The reader ---- */

  datatype Reader = Reader(line: string, pos: nat, started: bool, ended: bool)

  /** The text of what is not yet read. */
  function Coming(started: bool, ended: bool, unread: seq<byte>): string {
    if ended then "" else if started then RowsText(unread) else LogText(unread)
  }

  function TextOr(r: Option<(string, nat)>): string {
    if r.Some? then r.value.0 else ""
  }

  class FlogCsv {
    const log: seq<byte>
    var at: nat
    var s: Reader

    ghost predicate Valid()
      reads this
    {
      at <= |log| && s.pos <= |s.line| <= FLOG_LINE_MAX
    }

    ghost function Rest(): string
      reads this
      requires Valid()
    {
      s.line[s.pos..] + Coming(s.started, s.ended, log[at..])
    }

    /** flog_csv_init(), over the log behind the source. */
    constructor (log: seq<byte>)
      ensures Valid() && this.log == log && Rest() == LogText(log)
    {
      this.log := log;
      at := 0;
      s := Reader("", 0, false, false);
      new;
      assert log[0..] == log;
    }

    /** The source: some of the next n bytes, none only at the log's end. */
    method ReadSource(n: nat) returns (b: seq<byte>)
      requires at <= |log| && n > 0
      modifies `at
      ensures old(at) <= at <= |log| && b == log[old(at)..at] && |b| <= n
      ensures b == [] ==> at == |log|
    {
      if at == |log| {
        return [];
      }
      var k: nat :| 1 <= k <= n && k <= |log| - at;
      b := log[at..at + k];
      at := at + k;
    }

    /** take(): the source asked until it has given n bytes or ends. */
    method Take(n: nat) returns (ok: bool, b: seq<byte>)
      requires at <= |log|
      modifies `at
      ensures ok == (old(at) + n <= |log|)
      ensures old(at) <= at <= |log| && (ok ==> at == old(at) + n && b == log[old(at)..at])
    {
      b := [];
      while |b| < n
        invariant |b| <= n && old(at) <= at <= |log| && b == log[old(at)..at]
      {
        var k := ReadSource(n - |b|);
        if k == [] {
          return false, b;
        }
        b := b + k;
      }
      ok := true;
    }

    /** render_header(), past the magic at start. */
    method RenderHeader(ghost start: nat, fixed: nat) returns (text: string)
      requires fixed == HDR_FIXED || fixed == HDR_FIXED_V1
      requires at == start + 4 <= |log|
      modifies `at
      ensures at <= |log| && text == TextOr(RenderedBody(log[start..], fixed)) && |text| < FLOG_LINE_MAX
      ensures text != "" ==> at == start + RenderedBody(log[start..], fixed).value.1
    {
      hide HeaderText, HeaderAt, CommonLines, DeciderLines, TextLines;
      ghost var b := log[start..];
      var ok, lead := Take(2);
      if !ok {
        return "";
      }
      assert lead[0] == b[4] && lead[1] == b[5];
      if lead[0] != REC_HEADER || lead[1] < fixed - 2 || lead[1] > fixed - 2 + FLOG_BOARD_MAX {
        return "";
      }
      var h;
      ok, h := Take(lead[1]);
      if !ok {
        return "";
      }
      assert h == b[6..6 + b[5]];
      text := Printed(HeaderAt(h, fixed), fixed);
    }

    method RenderSample(ghost start: nat) returns (text: string)
      requires at == start + 1 <= |log| && log[start] == REC_SAMPLE
      modifies `at
      ensures at <= |log| && text == TextOr(Rendered(log[start..])) && |text| <= FLOG_LINE_MAX
      ensures text != "" ==> at == start + Rendered(log[start..]).value.1
    {
      hide RowOf, SampleFields, Get32, Get16;
      ghost var b := log[start..];
      var ok, r := Take(FLOG_SAMPLE_BYTES - 1);
      if !ok {
        return "";
      }
      assert forall p :: 0 <= p < |r| ==> r[p] == b[p + 1];
      SampleShifted(r, b);
      text := SampleText(SampleFrom(r));
    }

    method RenderText(ghost start: nat) returns (text: string)
      requires at == start + 1 <= |log| && log[start] == REC_TEXT
      modifies `at
      ensures at <= |log| && text == TextOr(Rendered(log[start..])) && |text| <= FLOG_LINE_MAX
      ensures text != "" ==> at == start + Rendered(log[start..]).value.1
    {
      hide RowOf, TextFields;
      ghost var b := log[start..];
      var ok, t := Take(TEXT_FIXED - 1);
      if !ok {
        return "";
      }
      assert forall p :: 0 <= p < |t| ==> t[p] == b[p + 1];
      if t[5] > FLOG_TEXT_MAX {
        return "";
      }
      var chars;
      ok, chars := Take(t[5]);
      if !ok {
        return "";
      }
      assert chars == b[TEXT_FIXED..TEXT_FIXED + b[6]];
      text := TextLine(Get32(t, 0), t[4], chars);
    }

    /** next_line() */
    method NextLine() returns (ok: bool)
      requires Valid() && s.pos == |s.line|
      modifies this
      ensures Valid() && Rest() == old(Rest()) && ok == (old(Rest()) != "")
      ensures ok ==> s.pos < |s.line|
    {
      hide RenderedBody, Rendered;
      if s.ended {
        return false;
      }
      var text := "";
      ghost var start, b := at, log[at..];
      if !s.started {
        s := s.(started := true);
        var whole, magic := Take(4);
        if whole {
          assert magic == b[..4];
          if magic == FLOG_MAGIC {
            text := RenderHeader(start, HDR_FIXED);
          } else if magic == FLOG_MAGIC_V1 {
            text := RenderHeader(start, HDR_FIXED_V1);
          }
        }
        assert text == TextOr(RenderedHead(b));
        assert text != "" ==> log[at..] == b[RenderedHead(b).value.1..];
      } else {
        var whole, first := Take(1);
        if whole {
          assert first[0] == b[0];
          if first[0] == REC_SAMPLE {
            text := RenderSample(start);
          } else if first[0] == REC_TEXT {
            text := RenderText(start);
          }
        }
        assert text == TextOr(Rendered(b)) by { OtherTypesEnd(b); }
        assert text != "" ==> log[at..] == b[Rendered(b).value.1..];
      }
      if text == "" {
        s := s.(ended := true);
        return false;
      }
      s := s.(line := text, pos := 0);
      ok := true;
    }

    /** flog_csv_read(): the next characters, up to max; only counted when dst is null. */
    method Read(dst: array?<char>, max: int) returns (done: nat)
      requires Valid() && (dst != null ==> max <= dst.Length)
      modifies this, dst
      ensures Valid() && done <= |old(Rest())| && Rest() == old(Rest())[done..]
      ensures done == if max <= 0 then 0 else if max <= |old(Rest())| then max else |old(Rest())|
      ensures dst != null ==> dst[..done] == old(Rest())[..done]
      ensures dst != null ==> forall i :: done <= i < dst.Length ==> dst[i] == old(dst[i])
    {
      hide Coming;
      done := 0;
      ghost var all := Rest();
      while done < max
        invariant Valid() && done <= |all| && Rest() == all[done..] && (done == 0 || done <= max)
        invariant dst != null ==> done <= dst.Length && dst[..done] == all[..done]
        invariant dst != null ==> forall i :: done <= i < dst.Length ==> dst[i] == old(dst[i])
      {
        if s.pos == |s.line| {
          var more := NextLine();
          if !more {
            break;
          }
        }
        var k := |s.line| - s.pos;
        if k > max - done {
          k := max - done;
        }
        CopyOut(dst, done, k);
        SliceOn(all, done, k);
        done := done + k;
      }
    }

    method CopyOut(dst: array?<char>, done: nat, k: nat)
      requires Valid() && s.pos + k <= |s.line| && (dst != null ==> done + k <= dst.Length)
      modifies this, dst
      ensures Valid() && s == old(s).(pos := old(s).pos + k) && at == old(at)
      ensures k <= |old(Rest())| && Rest() == old(Rest())[k..]
      ensures dst != null ==> dst[..done + k] == old(dst[..done]) + old(Rest())[..k]
      ensures dst != null ==> forall i :: done + k <= i < dst.Length ==> dst[i] == old(dst[i])
    {
      hide Coming;
      ghost var piece := s.line[s.pos..s.pos + k];
      ghost var all := Rest();
      assert all[..k] == piece;
      assert all[k..] == s.line[s.pos + k..] + Coming(s.started, s.ended, log[at..]);
      if dst != null {
        forall i | 0 <= i < k {
          dst[done + i] := s.line[s.pos + i];
        }
        assert dst[..done + k] == old(dst[..done]) + piece;
      }
      s := s.(pos := s.pos + k);
    }
  }

  lemma SliceOn(all: string, done: nat, k: nat)
    requires done + k <= |all|
    ensures all[..done + k] == all[..done] + all[done..][..k] && all[done..][k..] == all[done + k..]
  {
  }

  const FLOG_COUNT_STEP := 4096

  /** A download's length, counted a step at a time before it is announced. */
  method CountText(log: seq<byte>) returns (len: nat)
    ensures len == |LogText(log)|
  {
    var r := new FlogCsv(log);
    len := 0;
    var k := FLOG_COUNT_STEP;
    while k == FLOG_COUNT_STEP
      invariant r.Valid() && len + |r.Rest()| == |LogText(log)| && fresh(r)
      invariant k != FLOG_COUNT_STEP ==> r.Rest() == ""
      decreases |r.Rest()|, if k == FLOG_COUNT_STEP then 1 else 0
    {
      k := r.Read(null, FLOG_COUNT_STEP);
      len := len + k;
    }
  }

  function Total(sizes: seq<nat>): nat {
    if sizes == [] then 0 else sizes[0] + Total(sizes[1..])
  }

  /** Reads of any sizes put together: one fixed text, its beginning when they are too few. */
  method Download(log: seq<byte>, sizes: seq<nat>) returns (text: string)
    ensures text == LogText(log)[..if Total(sizes) <= |LogText(log)| then Total(sizes) else |LogText(log)|]
  {
    hide LogText;
    var r := new FlogCsv(log);
    text := "";
    var i := 0;
    assert sizes[0..] == sizes;
    while i < |sizes|
      invariant i <= |sizes| && r.Valid() && fresh(r)
      invariant |text| <= |LogText(log)| && text == LogText(log)[..|text|] && r.Rest() == LogText(log)[|text|..]
      invariant |text| + Total(sizes[i..]) == Total(sizes) || (r.Rest() == "" && |text| <= Total(sizes))
    {
      var dst := new char[sizes[i]];
      ghost var before := text;
      var k := r.Read(dst, sizes[i]);
      text := text + dst[..k];
      SliceOn(LogText(log), |before|, k);
      assert sizes[i..][1..] == sizes[i + 1..];
      i := i + 1;
    }
  }

  lemma OtherTypesEnd(b: seq<byte>)
    ensures b == [] || (b[0] != REC_SAMPLE && b[0] != REC_TEXT) ==> Rendered(b) == None
  {
  }

  /** The sample in a record past its type. */
  function SampleFrom(r: seq<byte>): Sample
    requires |r| == FLOG_SAMPLE_BYTES - 1
  {
    Sample(Signed(Get32(r, 0)), Signed(Get32(r, 4)), Signed(Get32(r, 8)), Signed(Get32(r, 12)), Signed16(Get16(r, 16)),
           r[18], r[19], r[20])
  }

  lemma SampleShifted(r: seq<byte>, b: seq<byte>)
    requires |r| == FLOG_SAMPLE_BYTES - 1 && |b| >= FLOG_SAMPLE_BYTES
    requires forall p :: 0 <= p < |r| ==> r[p] == b[p + 1]
    ensures SampleFrom(r) == SampleAt(b)
  {
  }

  lemma ColumnsFit()
    ensures |COLUMNS| == 65
  {
  }

  /** The header's text through the bounded buffer, 0 when it does not fit. */
  method Printed(h: Header, fixed: nat) returns (text: string)
    requires |h.board| <= FLOG_BOARD_MAX && |h.id| <= 8 && |h.name| <= 8 && |h.estimator| <= 8
    ensures text == HeaderText(h, fixed) && |text| < FLOG_LINE_MAX
  {
    hide CommonLines, DeciderLines, TextLines, COLUMNS;
    CommonFits(h);
    DeciderFits(h);
    ColumnsFit();
    text := TextLines(CommonLines(h));
    ghost var common := text;
    if |text| > 0 && fixed == HDR_FIXED {
      text := text + TextLines(DeciderLines(h));
    }
    if 0 < |text| < FLOG_LINE_MAX {
      text := text + COLUMNS;
    }
    if !(0 < |text| < FLOG_LINE_MAX) {
      text := "";
    }
    assert text == common + ((if fixed == HDR_FIXED then TextLines(DeciderLines(h)) else "") + COLUMNS);
  }

  /** render_sample()'s line, field by field. */
  method SampleText(v: Sample) returns (o: string)
    ensures o == RowOf(SampleFields(v)) && |o| <= FLOG_LINE_MAX
  {
    hide Shown, ShownSigned, EventName, DigitOf, Join;
    ghost var fs := SampleFields(v);
    o := PutI32(v.time);
    SignedIsShort(v.time);
    assert o == Join(fs[..1], ',') by { JoinOne(fs); }
    var f := PutI32(v.pressure);
    SignedIsShort(v.pressure);
    o := o + ("," + f);
    FieldAdded(fs, 1);
    f := PutI32(v.altitude);
    SignedIsShort(v.altitude);
    o := o + ("," + f);
    FieldAdded(fs, 2);
    f := PutU32(v.state);
    WordIsShort(v.state);
    o := o + ("," + f);
    FieldAdded(fs, 3);
    f := PutU32(v.thrust);
    WordIsShort(v.thrust);
    o := o + ("," + f);
    FieldAdded(fs, 4);
    f := PutI32(v.raw);
    SignedIsShort(v.raw);
    o := o + ("," + f);
    FieldAdded(fs, 5);
    f := TenthsText(v.temp);
    o := o + ("," + f);
    FieldAdded(fs, 6);
    o := o + ("," + EventName(v.event));
    FieldAdded(fs, 7);
    assert fs[..8] == fs;
    o := o + "\n";
  }

  lemma JoinOne(fs: seq<string>)
    requires fs != []
    ensures Join(fs[..1], ',') == fs[0]
  {
  }

  lemma FieldAdded(fs: seq<string>, k: nat)
    requires 0 < k < |fs|
    ensures Join(fs[..k + 1], ',') == Join(fs[..k], ',') + ("," + fs[k])
  {
    JoinAppend(fs[..k], fs[k], ',');
    assert fs[..k + 1] == fs[..k] + [fs[k]];
  }

  method TenthsText(t: i16) returns (o: string)
    ensures o == Tenths(t) && |o| <= 13
  {
    hide Shown, DigitOf;
    var abs := Magnitude(t);
    o := if t < 0 then "-" else "";
    var whole := PutU32(abs / 10);
    WordIsShort(abs / 10);
    o := o + (whole + ("." + [DigitOf(abs % 10)]));
  }

  lemma TextJoin(time: string, last: string)
    ensures Join([time, "", "", "", "", "", "", last], ',') == time + (",,,,,,," + last)
  {
    var fs := [time, "", "", "", "", "", "", last];
    JoinOne(fs);
    FieldAdded(fs, 1);
    FieldAdded(fs, 2);
    FieldAdded(fs, 3);
    FieldAdded(fs, 4);
    FieldAdded(fs, 5);
    FieldAdded(fs, 6);
    FieldAdded(fs, 7);
    assert fs[..8] == fs;
  }

  method TextLine(time: u32, tag: byte, chars: seq<byte>) returns (o: string)
    requires |chars| <= FLOG_TEXT_MAX
    ensures o == RowOf(TextFields(time, tag, Chars(chars))) && |o| <= FLOG_LINE_MAX
  {
    hide Shown, TagName, Chars;
    o := PutU32(time);
    WordIsShort(time);
    o := o + ",,,,,,,";
    o := o + (TagName(tag) + (" " + Chars(chars)));
    TextJoin(Shown(time), TagName(tag) + (" " + Chars(chars)));
    assert o == Join(TextFields(time, tag, Chars(chars)), ',');
    o := o + "\n";
  }
}
