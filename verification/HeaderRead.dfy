/** The text of a log's header as its reader finds it (src/flight_log.c:156-194):
    lines, each a label and what it says. */
module HeaderRead {
  import opened CStrings
  import opened Decimals
  import opened FlightHeader
  import opened FlightRecords
  import opened Rows
  import opened Words
  import opened Wrappers
  import Config
  import ConfigNames

  /** What the first line of this label says. */
  function Said(lines: seq<string>, tag: string): Option<string> {
    if lines == [] then None
    else if tag <= lines[0] then Some(lines[0][|tag|..])
    else Said(lines[1..], tag)
  }

  /** A mode and a value, as their line says them: the mode by its one name. */
  function PyroRead(s: string): Option<(nat, nat)> {
    var i := IndexOf(s, ' ');
    if i == |s| || !AllDigits(s[i + 1..]) then None
    else
      match Config.ModeNamed(s[..i])
      case None => None
      case Some(m) => Some((m, Decimal(s[i + 1..])))
  }

  /* ---- The lines ---- */

  function Wholes(ls: seq<(string, string)>): (w: seq<string>)
    ensures |w| == |ls| && forall i :: 0 <= i < |ls| ==> w[i] == ls[i].0 + ls[i].1
  {
    if ls == [] then [] else [ls[0].0 + ls[0].1] + Wholes(ls[1..])
  }

  predicate OneLine(s: string) {
    '\n' !in s
  }

  lemma {:induction false} LinesSplit(ls: seq<(string, string)>, rest: string)
    requires forall l :: l in ls ==> OneLine(l.0) && OneLine(l.1)
    ensures Split(TextLines(ls) + rest, '\n') == Wholes(ls) + Split(rest, '\n')
  {
    hide Split;
    if ls == [] {
      assert TextLines(ls) + rest == rest && Wholes(ls) + Split(rest, '\n') == Split(rest, '\n');
    } else {
      var whole, after := ls[0].0 + ls[0].1, TextLines(ls[1..]) + rest;
      assert ls[0] in ls && ls == [ls[0]] + ls[1..];
      LinesSplit(ls[1..], rest);
      SplitFirst(whole, after, '\n');
      assert TextLines(ls) + rest == whole + (['\n'] + after);
      assert Wholes(ls) + Split(rest, '\n') == [whole] + (Wholes(ls[1..]) + Split(rest, '\n'));
    }
  }

  /** The lines of the text but the first: what the header says of itself. */
  function Lines(h: Header, fixed: nat): seq<(string, string)> {
    CommonLines(h)[1..] + (if fixed == HDR_FIXED then DeciderLines(h) else [])
  }

  lemma {:induction false} TextAppend(a: seq<(string, string)>, b: seq<(string, string)>)
    ensures TextLines(a + b) == TextLines(a) + TextLines(b)
  {
    if a == [] {
      assert a + b == b;
    } else {
      TextAppend(a[1..], b);
      assert (a + b)[1..] == a[1..] + b;
    }
  }

  /** The header's strings are of a line each. */
  predicate OfLines(h: Header) {
    10 !in h.board && 10 !in h.id && 10 !in h.name && 10 !in h.estimator
  }

  lemma LinesAreLines(h: Header, fixed: nat)
    requires OfLines(h)
    ensures forall l :: l in CommonLines(h) + DeciderLines(h) ==> OneLine(l.0) && OneLine(l.1)
  {
    hide Shown, ShownSigned, ConfigNames.ModeName, UnitsShown;
    CharsAreOneLine(h.board);
    CharsAreOneLine(h.id);
    CharsAreOneLine(h.name);
    CharsAreOneLine(h.estimator);
    PyroIsOneLine(h.pyro1);
    PyroIsOneLine(h.pyro2);
    SignedIsOneLine(h.groundPa);
    UnitsAreOneLine(h.units);
    LabelsAreOneLine();
  }

  lemma LabelsAreOneLine()
    ensures OneLine("# ID: ") && OneLine("# Name: ") && OneLine("# Pyro1: ") && OneLine("# Pyro2: ") && OneLine("# ")
    ensures OneLine("# Units: ") && OneLine("# Ground Pa: ") && OneLine("# Log rate: ") && OneLine("every sample")
    ensures OneLine("# Estimator: ") && OneLine("# Apogee decided by: ") && OneLine(" Flight Data")
    ensures OneLine("estimator") && OneLine("simple filter")
  {
  }

  lemma CharsAreOneLine(b: seq<byte>)
    requires 10 !in b
    ensures OneLine(Chars(b))
  {
    forall i | 0 <= i < |b|
      ensures Chars(b)[i] != '\n'
    {
      assert b[i] in b;
    }
  }

  lemma UnitsAreOneLine(u: byte)
    ensures OneLine(UnitsShown(u))
  {
  }

  lemma PyroIsOneLine(p: Pyro)
    ensures OneLine(PyroShown(p)) && ' ' !in ConfigNames.ModeName(p.mode)
  {
    hide Shown;
    assert forall c :: c in Shown(p.value) ==> IsDigit(c);
  }

  lemma SignedIsOneLine(v: int)
    ensures OneLine(ShownSigned(v))
  {
    hide Shown;
    if v >= 0 {
      assert forall c :: c in Shown(v) ==> IsDigit(c);
    } else {
      assert forall c :: c in Shown(-v) ==> IsDigit(c);
    }
  }

  /** The text is its lines, the columns, and nothing after them. */
  lemma TextIsLines(h: Header, fixed: nat)
    requires OfLines(h) && (fixed == HDR_FIXED || fixed == HDR_FIXED_V1)
    ensures Split(HeaderText(h, fixed), '\n')
         == ["# " + (Chars(h.board) + " Flight Data")] + Wholes(Lines(h, fixed)) + [COLUMN_NAMES, ""]
  {
    hide Split, CommonLines, DeciderLines, TextLines, Wholes, OfLines, OneLine, COLUMNS, COLUMN_NAMES;
    var decided := if fixed == HDR_FIXED then DeciderLines(h) else [];
    var all := CommonLines(h) + decided;
    FirstLine(h);
    LinesAreLines(h, fixed);
    LinesSplit(all, COLUMNS);
    TextAppend(CommonLines(h), decided);
    TextOf(h, fixed, all);
    assert all[1..] == Lines(h, fixed);
    WholesFirst(all);
    ColumnsSplit();
  }

  lemma TextOf(h: Header, fixed: nat, all: seq<(string, string)>)
    requires fixed == HDR_FIXED || fixed == HDR_FIXED_V1
    requires TextLines(all) == TextLines(CommonLines(h)) + TextLines(if fixed == HDR_FIXED then DeciderLines(h) else [])
    ensures HeaderText(h, fixed) == TextLines(all) + COLUMNS
  {
    hide CommonLines, DeciderLines, COLUMNS;
  }

  lemma WholesFirst(ls: seq<(string, string)>)
    requires ls != []
    ensures Wholes(ls) == [ls[0].0 + ls[0].1] + Wholes(ls[1..])
  {
  }

  lemma FirstLine(h: Header)
    ensures CommonLines(h) != [] && CommonLines(h)[0] == ("# ", Chars(h.board) + " Flight Data")
  {
  }

  lemma ColumnsSplit()
    ensures Split(COLUMNS, '\n') == [COLUMN_NAMES, ""]
  {
    hide Split;
    ColumnsAreOneLine();
    SplitFirst(COLUMN_NAMES, "", '\n');
    assert COLUMNS == COLUMN_NAMES + (['\n'] + "");
    SplitAlone("", '\n');
  }

  lemma ColumnsAreOneLine()
    ensures OneLine(COLUMN_NAMES)
  {
    assert OneLine("time_ms,pressure_pa,altitude_cm,");
    assert OneLine("state,thrust,raw_pa,temp_c,event");
  }

  /* ---- What is read ---- */

  /** A label that begins no line before the k-th says what that one does. */
  lemma {:induction false} SaidAt(w: seq<string>, tag: string, k: nat)
    requires k < |w| && tag <= w[k] && forall i :: 0 <= i < k ==> !(tag <= w[i])
    ensures Said(w, tag) == Some(w[k][|tag|..])
  {
    if k > 0 {
      SaidAt(w[1..], tag, k - 1);
    }
  }

  /** Two labels of the header begin no line in common. */
  lemma LabelsDiffer(i: nat, j: nat, value: string)
    requires i < j < |LABELS|
    ensures !(LABELS[i] <= LABELS[j] + value) && !(LABELS[j] <= LABELS[i] + value)
  {
    var a, b := LABELS[i], LABELS[j];
    var at := if a[2] == b[2] then 6 else 2;
    Marks(i);
    Marks(j);
    assert (a + value)[at] == a[at] && (b + value)[at] == b[at] && a[at] != b[at];
  }

  const LABELS := [
    "# ID: ", "# Name: ", "# Pyro1: ", "# Pyro2: ", "# Units: ", "# Ground Pa: ", "# Log rate: ", "# Estimator: ",
    "# Apogee decided by: "]

  lemma Marks(i: nat)
    requires i < |LABELS|
    ensures |LABELS[i]| > 2 && LABELS[i][2] == "INPPUGLEA"[i] && (i == 2 || i == 3 ==> |LABELS[i]| > 6)
    ensures LABELS[2][6] == '1' && LABELS[3][6] == '2'
  {
  }

  /** The k-th label says what its line does. */
  lemma LabelSays(h: Header, fixed: nat, k: nat)
    requires k < |Lines(h, fixed)|
    ensures k < |LABELS| && Said(Wholes(Lines(h, fixed)), LABELS[k]) == Some(Lines(h, fixed)[k].1)
  {
    var ls := Lines(h, fixed);
    Labelling(h, fixed);
    var w := Wholes(ls);
    forall i | 0 <= i < k
      ensures !(LABELS[k] <= w[i])
    {
      LabelsDiffer(i, k, ls[i].1);
    }
    assert w[k] == LABELS[k] + ls[k].1 && w[k][|LABELS[k]|..] == ls[k].1;
    SaidAt(w, LABELS[k], k);
  }

  lemma Labelling(h: Header, fixed: nat)
    ensures |Lines(h, fixed)| == (if fixed == HDR_FIXED then 9 else 7)
    ensures forall i :: 0 <= i < |Lines(h, fixed)| ==> Lines(h, fixed)[i].0 == LABELS[i]
  {
    hide Shown, ShownSigned, Chars, UnitsShown, PyroShown;
  }

  lemma PyroReads(p: Pyro)
    requires p.mode <= 4
    ensures PyroRead(PyroShown(p)) == Some((p.mode as nat, p.value as nat))
  {
    hide Shown, Decimal;
    PyroIsOneLine(p);
    IndexAfter(ConfigNames.ModeName(p.mode), ' ', Shown(p.value));
    assert PyroShown(p) == ConfigNames.ModeName(p.mode) + ([' '] + Shown(p.value));
    ShownIsDecimal(p.value);
    Config.ModeComesBack(p.mode);
  }

  /** The log and the configuration call a unit the same exactly when it is one of
      the three; of another the log says cm and the configuration m. */
  lemma UnitsAgree(u: byte)
    ensures UnitsShown(u) == Config.UnitsName(u) <==> u <= 2
    ensures u <= 2 ==> Config.UnitsNamed(UnitsShown(u)) == Some(u as nat)
  {
  }

  /** From the text alone a reader has the header back: the board, the id and the
      name, each channel's mode and value, the units, the ground, the estimator and
      who decides apogee; then the columns, and the rows. */
  lemma HeaderReadsBack(h: Header)
    requires OfLines(h) && h.pyro1.mode <= 4 && h.pyro2.mode <= 4
    ensures var ls := Split(HeaderText(h, HDR_FIXED), '\n');
            && |ls| == 12 && ls[0] == "# " + (Chars(h.board) + " Flight Data")
            && ls[10] == COLUMN_NAMES && ls[11] == ""
            && SaysHeader(ls[1..10], h)
  {
    hide Split, Said, HeaderText, Shown, PyroRead, Lines, COLUMNS, COLUMN_NAMES, LABELS;
    var ls := Split(HeaderText(h, HDR_FIXED), '\n');
    TextIsLines(h, HDR_FIXED);
    Labelling(h, HDR_FIXED);
    assert ls[1..10] == Wholes(Lines(h, HDR_FIXED));
    LinesSay(h);
  }

  predicate SaysHeader(ls: seq<string>, h: Header) {
    var p1, p2, units := Said(ls, "# Pyro1: "), Said(ls, "# Pyro2: "), Said(ls, "# Units: ");
    var ground := Said(ls, "# Ground Pa: ");
    && Said(ls, "# ID: ") == Some(Chars(h.id)) && Said(ls, "# Name: ") == Some(Chars(h.name))
    && p1.Some? && PyroRead(p1.value) == Some((h.pyro1.mode as nat, h.pyro1.value as nat))
    && p2.Some? && PyroRead(p2.value) == Some((h.pyro2.mode as nat, h.pyro2.value as nat))
    && units.Some? && (h.units <= 2 ==> Config.UnitsNamed(units.value) == Some(h.units as nat))
    && ground.Some? && ReadSigned(ground.value) == Some(h.groundPa as int)
    && Said(ls, "# Estimator: ") == Some(Chars(h.estimator))
    && Said(ls, "# Apogee decided by: ") == Some(if h.modelDecides then "estimator" else "simple filter")
  }

  lemma LinesSay(h: Header)
    requires h.pyro1.mode <= 4 && h.pyro2.mode <= 4
    ensures SaysHeader(Wholes(Lines(h, HDR_FIXED)), h)
  {
    hide Said, Shown, ShownSigned, PyroRead, PyroShown, UnitsShown, Chars, ReadSigned;
    var ls := Lines(h, HDR_FIXED);
    Labelling(h, HDR_FIXED);
    LabelSays(h, HDR_FIXED, 0);
    LabelSays(h, HDR_FIXED, 1);
    LabelSays(h, HDR_FIXED, 2);
    LabelSays(h, HDR_FIXED, 3);
    LabelSays(h, HDR_FIXED, 4);
    LabelSays(h, HDR_FIXED, 5);
    LabelSays(h, HDR_FIXED, 7);
    LabelSays(h, HDR_FIXED, 8);
    PyroReads(h.pyro1);
    PyroReads(h.pyro2);
    UnitsAgree(h.units);
    SignedRoundTrip(h.groundPa);
  }

  /* ---- A log of the first version ---- */

  /** A header of the first version: neither the estimator nor who decides. */
  function OldHeaderBytes(h: Header): (b: seq<byte>) {
    FLOG_MAGIC_V1 + [REC_HEADER, HDR_FIXED_V1 - 2 + |BoardOf(h)|] + (FixedBytes(h)[..HDR_FIXED_V1 - 2] + BoardOf(h))
  }

  lemma OldHeaderAt(h: Header)
    ensures HeaderAt(FixedBytes(h)[..HDR_FIXED_V1 - 2] + BoardOf(h), HDR_FIXED_V1)
         == Kept(h).(estimator := [], modelDecides := false)
  {
    hide UpTo, Str8, FixedBytes, BoardOf;
    var b := FixedBytes(h)[..HDR_FIXED_V1 - 2] + BoardOf(h);
    OldFields(h);
    Get16Put(b, 17, h.pyro1.value);
    Get16Put(b, 20, h.pyro2.value);
    Get32Put(b, 23, Wrap(h.groundPa));
    SignedWrap(h.groundPa);
    UpToStr8(h.id);
    UpToStr8(h.name);
    BoardAgain(h);
  }

  lemma OldFields(h: Header)
    ensures var b := FixedBytes(h)[..HDR_FIXED_V1 - 2] + BoardOf(h);
            && b[..8] == Str8(h.id) && b[8..16] == Str8(h.name) && b[HDR_FIXED_V1 - 2..] == BoardOf(h)
            && b[16] == h.pyro1.mode && b[17..19] == Put16(h.pyro1.value)
            && b[19] == h.pyro2.mode && b[20..22] == Put16(h.pyro2.value)
            && b[22] == h.units && b[23..27] == Put32(Wrap(h.groundPa))
  {
    hide UpTo, Str8, Put16, Put32;
    SettingsFields(h);
    var f, s := FixedBytes(h), SettingsBytes(h);
    var b := f[..HDR_FIXED_V1 - 2] + BoardOf(h);
    assert f[..8] == Str8(h.id) && f[8..16] == Str8(h.name);
    assert f[16..28] == s;
    assert forall i :: 0 <= i < 12 ==> b[16 + i] == s[i];
    assert b[17..19] == s[1..3] && b[20..22] == s[4..6] && b[23..27] == s[7..11];
  }

  lemma SettingsFields(h: Header)
    ensures var s := SettingsBytes(h);
            && s[0] == h.pyro1.mode && s[1..3] == Put16(h.pyro1.value) && s[3] == h.pyro2.mode
            && s[4..6] == Put16(h.pyro2.value) && s[6] == h.units && s[7..11] == Put32(Wrap(h.groundPa))
  {
    hide Put16, Put32;
  }

  lemma OldLines(h: Header)
    ensures CommonLines(h.(estimator := [], modelDecides := false)) == CommonLines(h)
    ensures HeaderText(h, HDR_FIXED_V1) == TextLines(CommonLines(h)) + COLUMNS
  {
    hide Shown, ShownSigned, Chars, UnitsShown, PyroShown, COLUMNS, TextLines;
    assert "" + COLUMNS == COLUMNS;
  }

  /** It renders to the same text but for those two lines, which it does not have. */
  lemma OldHeaderRenders(h: Header, rest: seq<byte>)
    ensures RenderedHead(OldHeaderBytes(h) + rest)
         == Some((TextLines(CommonLines(Kept(h))) + COLUMNS, |OldHeaderBytes(h)|))
  {
    hide HeaderAt, Kept, FixedBytes, BoardOf, TextLines, COLUMNS, HeaderText, CommonLines;
    var b := OldHeaderBytes(h) + rest;
    OldHeaderAt(h);
    OldLines(Kept(h));
    OldLines(Kept(h).(estimator := [], modelDecides := false));
    OldBytes(h, rest);
    assert b[..4][3] != FLOG_MAGIC[3];
  }

  lemma OldBytes(h: Header, rest: seq<byte>)
    ensures var b := OldHeaderBytes(h) + rest;
            && |b| >= 6 + b[5] && b[..4] == FLOG_MAGIC_V1 && FLOG_MAGIC_V1[3] == 49
            && b[4] == REC_HEADER && b[5] == HDR_FIXED_V1 - 2 + |BoardOf(h)| && 6 + b[5] == |OldHeaderBytes(h)|
            && b[6..6 + b[5]] == FixedBytes(h)[..HDR_FIXED_V1 - 2] + BoardOf(h)
  {
    hide FixedBytes, BoardOf;
  }
}
