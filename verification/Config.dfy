/** config.ini (src/config.c): everything is driven by one table of fields
    (src/config_fields.h), so what is proved is proved over the table: text
    written from a configuration parses back to it. */
module Config {
  import opened Wrappers
  import opened CStrings
  import opened Decimals
  import opened IniTokenizer
  import opened ConfigNames

  const CONFIG_INI_MAX := 1024
  const STR_MAX := 8

  datatype Kind = StrKind | IntKind(min: nat, max: nat) | ModeKind | UnitsKind | BoolKind

  datatype Field = Field(key: string, kind: Kind)

  datatype Value = Str(s: string) | Num(n: nat) | Mode(m: nat) | Units(u: nat) | Flag(b: bool)

  const FIELDS: seq<Field> := [
    Field("id", StrKind), Field("name", StrKind),
    Field("pyro1_mode", ModeKind), Field("pyro1_value", IntKind(0, 65535)),
    Field("pyro2_mode", ModeKind), Field("pyro2_value", IntKind(0, 65535)),
    Field("units", UnitsKind),
    Field("pyro1_refire_speed", IntKind(0, 65535)), Field("pyro2_refire_speed", IntKind(0, 65535)),
    Field("emergency_fire_speed", IntKind(0, 65535)), Field("refire_interval", IntKind(0, 65535)),
    Field("fire_gap", IntKind(0, 65535)), Field("estimator", StrKind), Field("model_decides", BoolKind),
    Field("apogee_lockout", IntKind(0, 65535)), Field("standard_atmosphere", BoolKind),
    Field("landing_timeout", IntKind(0, 255)), Field("lua_enabled", BoolKind),
    Field("lua_baud", IntKind(300, 921600)), Field("lua_pixels", IntKind(0, 65535))
  ]

  /* ---- Values ---- */

  function UnitsName(u: nat): string {
    if u == 0 then "cm" else if u == 2 then "ft" else "m"
  }

  function UnitsNamed(s: string): Option<nat> {
    if s == "cm" then Some(0) else if s == "m" then Some(1) else if s == "ft" then Some(2) else None
  }

  function ModeNamed(s: string): Option<nat> {
    if s == "none" then Some(PYRO_MODE_NONE)
    else if s == "delay" then Some(PYRO_MODE_DELAY)
    else if s == "agl" then Some(PYRO_MODE_AGL)
    else if s == "fallen" then Some(PYRO_MODE_FALLEN)
    else if s == "speed" then Some(PYRO_MODE_SPEED)
    else None
  }

  function BoolNamed(s: string): Option<bool> {
    if s == "true" || s == "1" then Some(true) else if s == "false" || s == "0" then Some(false) else None
  }

  /** parse_uint(): digits only, in range. */
  function UintIn(s: string, min: nat, max: nat): Option<nat> {
    if s != "" && AllDigits(s) && min <= Decimal(s) <= max then Some(Decimal(s)) else None
  }

  /** What a text is for a field, if it is taken. */
  function Taken(kind: Kind, text: string): Option<Value> {
    match kind
    case StrKind => Some(Str(if |text| <= STR_MAX then text else text[..STR_MAX]))
    case IntKind(min, max) => (match UintIn(text, min, max) case None => None case Some(n) => Some(Num(n)))
    case ModeKind => (match ModeNamed(text) case None => None case Some(m) => Some(Mode(m)))
    case UnitsKind => (match UnitsNamed(text) case None => None case Some(u) => Some(Units(u)))
    case BoolKind => (match BoolNamed(text) case None => None case Some(b) => Some(Flag(b)))
  }

  /** A field after a text for it: a rejected one leaves it as it was, but a mode
      that has no such name never fires. */
  function Assigned(kind: Kind, old_: Value, text: string): Value {
    match Taken(kind, text)
    case Some(v) => v
    case None => if kind == ModeKind then Mode(PYRO_MODE_NONE) else old_
  }

  function ValueText(v: Value): string {
    match v
    case Str(s) => s
    case Num(n) => Shown(n)
    case Mode(m) => ModeName(m)
    case Units(u) => UnitsName(u)
    case Flag(b) => if b then "true" else "false"
  }

  predicate Fits(kind: Kind, v: Value) {
    match kind
    case StrKind => v.Str? && |v.s| <= STR_MAX && IsValue(v.s)
    case IntKind(min, max) => v.Num? && min <= v.n <= max
    case ModeKind => v.Mode? && v.m <= 4
    case UnitsKind => v.Units? && v.u <= 2
    case BoolKind => v.Flag?
  }

  lemma ValueComesBack(kind: Kind, v: Value)
    requires Fits(kind, v)
    ensures Taken(kind, ValueText(v)) == Some(v)
  {
    if kind.IntKind? {
      ShownIsDecimal(v.n);
    }
  }

  /** What is taken, and as what: a mode or a unit by its one name, a number by
      digits alone that say it and are in its range, a flag by either of two words,
      and of a string what fits. */
  lemma TakenExactly(text: string, min: nat, max: nat, n: nat)
    ensures Taken(ModeKind, text) == Some(Mode(n)) <==> n <= 4 && text == ModeName(n)
    ensures Taken(UnitsKind, text) == Some(Units(n)) <==> n <= 2 && text == UnitsName(n)
    ensures Taken(IntKind(min, max), text) == Some(Num(n)) <==>
            text != "" && AllDigits(text) && Decimal(text) == n && min <= n <= max
    ensures Taken(BoolKind, text) == Some(Flag(true)) <==> text in {"true", "1"}
    ensures Taken(BoolKind, text) == Some(Flag(false)) <==> text in {"false", "0"}
    ensures Taken(StrKind, text) == Some(Str(text[..if |text| > STR_MAX then STR_MAX else |text|]))
  {
    hide Decimal, ModeNamed, ModeName, UnitsNamed, UnitsName;
    assert text[..|text|] == text;
    ModesNamed(text, n);
    UnitsAreNamed(text, n);
  }

  lemma ModesNamed(text: string, n: nat)
    ensures ModeNamed(text) == Some(n) <==> n <= 4 && text == ModeName(n)
  {
    if ModeNamed(text) != Some(n) && n <= 4 {
      ModeComesBack(n);
    }
  }

  lemma ModeComesBack(n: nat)
    requires n <= 4
    ensures ModeNamed(ModeName(n)) == Some(n)
  {
  }

  lemma UnitsAreNamed(text: string, n: nat)
    ensures UnitsNamed(text) == Some(n) <==> n <= 2 && text == UnitsName(n)
  {
  }

  lemma TextIsValue(kind: Kind, v: Value)
    requires Fits(kind, v)
    ensures IsValue(ValueText(v))
  {
    if kind.IntKind? {
      DigitsAreValue(Shown(v.n));
    }
  }

  lemma DigitsAreValue(s: string)
    requires AllDigits(s)
    ensures IsValue(s)
  {
    assert forall c :: c in s ==> IsDigit(c);
    assert s != "" ==> s[0] in s && s[|s| - 1] in s;
  }

  /* ---- Parsing ---- */

  /** parse_ctx_t */
  datatype Parse = Parse(cfg: seq<Value>, rejected: nat)

  /** The table's row for a key, or its end. */
  function RowOf(fields: seq<Field>, key: string): (i: nat)
    ensures i <= |fields| && (i < |fields| ==> fields[i].key == key)
    ensures forall j :: 0 <= j < i ==> fields[j].key != key
  {
    if fields == [] || fields[0].key == key then 0 else 1 + RowOf(fields[1..], key)
  }

  /** A pair whose key is known assigns its field; one that is not is ignored. */
  function PairTaken(fields: seq<Field>, p: Parse, pair: Pair): Parse
    requires |p.cfg| == |fields|
    ensures |PairTaken(fields, p, pair).cfg| == |fields|
  {
    var i := RowOf(fields, pair.0);
    if i == |fields| then p
    else Parse(p.cfg[i := Assigned(fields[i].kind, p.cfg[i], pair.1)],
               p.rejected + (if Taken(fields[i].kind, pair.1).None? then 1 else 0))
  }

  function PairsTaken(fields: seq<Field>, p: Parse, pairs: seq<Pair>): (r: Parse)
    requires |p.cfg| == |fields|
    ensures |r.cfg| == |fields|
  {
    if pairs == [] then p else PairTaken(fields, PairsTaken(fields, p, pairs[..|pairs| - 1]), pairs[|pairs| - 1])
  }

  /** A field's value after the pairs with its own key, the others left out. */
  function OwnValue(field: Field, v: Value, pairs: seq<Pair>): Value {
    if pairs == [] then v
    else
      var before, last := OwnValue(field, v, pairs[..|pairs| - 1]), pairs[|pairs| - 1];
      if last.0 == field.key then Assigned(field.kind, before, last.1) else before
  }

  function Rejections(fields: seq<Field>, pairs: seq<Pair>): nat {
    if pairs == [] then 0
    else
      var last := pairs[|pairs| - 1];
      var i := RowOf(fields, last.0);
      Rejections(fields, pairs[..|pairs| - 1])
      + (if i < |fields| && Taken(fields[i].kind, last.1).None? then 1 else 0)
  }

  predicate Distinct(fields: seq<Field>) {
    forall i, j :: 0 <= i < j < |fields| ==> fields[i].key != fields[j].key
  }

  /** Whatever the text, each field is what its own pairs make of it, and the count
      is of the known keys' values that were not taken. */
  lemma {:induction false} FieldsAreTheirOwn(fields: seq<Field>, p: Parse, pairs: seq<Pair>)
    requires |p.cfg| == |fields| && Distinct(fields)
    ensures var r := PairsTaken(fields, p, pairs);
            && r.rejected == p.rejected + Rejections(fields, pairs)
            && forall i :: 0 <= i < |fields| ==> r.cfg[i] == OwnValue(fields[i], p.cfg[i], pairs)
  {
    hide Assigned, Taken;
    if pairs != [] {
      FieldsAreTheirOwn(fields, p, pairs[..|pairs| - 1]);
      var last := pairs[|pairs| - 1];
      var row := RowOf(fields, last.0);
      forall i | 0 <= i < |fields| ensures fields[i].key == last.0 <==> i == row {
        assert row < i ==> fields[row].key != fields[i].key;
      }
    }
  }

  /** With no pair of its own a field is left alone. */
  lemma {:induction false} AbsentKeeps(field: Field, v: Value, pairs: seq<Pair>)
    requires forall p :: p in pairs ==> p.0 != field.key
    ensures OwnValue(field, v, pairs) == v
  {
    if pairs != [] {
      assert pairs[|pairs| - 1] in pairs;
      AbsentKeeps(field, v, pairs[..|pairs| - 1]);
    }
  }

  /** One whose every value is rejected does too, but a mode, which is then none. */
  lemma {:induction false} RejectedKeeps(field: Field, v: Value, pairs: seq<Pair>)
    requires forall p :: p in pairs && p.0 == field.key ==> Taken(field.kind, p.1) == None
    ensures OwnValue(field, v, pairs)
         == if field.kind == ModeKind && (exists p :: p in pairs && p.0 == field.key) then Mode(PYRO_MODE_NONE) else v
  {
    if pairs != [] {
      var init, last := pairs[..|pairs| - 1], pairs[|pairs| - 1];
      assert pairs == init + [last];
      assert last in pairs;
      RejectedKeeps(field, v, init);
    }
  }

  /* ---- Serialising ---- */

  function LineOf(field: Field, v: Value): string {
    field.key + ("=" + ValueText(v))
  }

  function Lines(fields: seq<Field>, cfg: seq<Value>): string
    requires |cfg| == |fields|
  {
    if fields == [] then "" else LineOf(fields[0], cfg[0]) + ("\r\n" + Lines(fields[1..], cfg[1..]))
  }

  const SECTION := "[pyro]"

  /** The whole text. */
  function Text(fields: seq<Field>, cfg: seq<Value>): string
    requires |cfg| == |fields|
  {
    SECTION + ("\r\n" + Lines(fields, cfg))
  }

  function Entries(fields: seq<Field>, cfg: seq<Value>): (e: seq<Pair>)
    requires |cfg| == |fields|
    ensures |e| == |fields| && forall i :: 0 <= i < |e| ==> e[i] == (fields[i].key, ValueText(cfg[i]))
  {
    seq(|fields|, i requires 0 <= i < |fields| => (fields[i].key, ValueText(cfg[i])))
  }

  predicate Keyed(fields: seq<Field>) {
    forall f :: f in fields ==> IsKey(f.key)
  }

  predicate AllFit(fields: seq<Field>, cfg: seq<Value>) {
    |cfg| == |fields| && forall i :: 0 <= i < |fields| ==> Fits(fields[i].kind, cfg[i])
  }

  predicate EndsText(tail: string) {
    tail == "" || tail[0] == '\0'
  }

  /** What is written is read as the table's keys and their values, in order. */
  lemma {:induction false} LinesRead(fields: seq<Field>, cfg: seq<Value>, tail: string)
    requires Keyed(fields) && AllFit(fields, cfg) && EndsText(tail)
    ensures Pairs(Lines(fields, cfg) + tail) == Entries(fields, cfg)
  {
    hide Pairs, PairOf, IsValue;
    if fields == [] {
      assert Lines(fields, cfg) + tail == tail;
      NoPairs(tail);
    } else {
      var key, text := fields[0].key, ValueText(cfg[0]);
      var rest := Lines(fields[1..], cfg[1..]) + tail;
      assert fields[0] in fields && forall f :: f in fields[1..] ==> f in fields;
      LinesRead(fields[1..], cfg[1..], tail);
      TextIsValue(fields[0].kind, cfg[0]);
      PairComesBack(key, text);
      LinesBegin(fields[1..], cfg[1..], tail);
      LineIsLine(key, text);
      LineOff(LineOf(fields[0], cfg[0]), rest);
      LinesAssociate(LineOf(fields[0], cfg[0]), Lines(fields[1..], cfg[1..]), tail);
      assert Entries(fields, cfg) == [(key, text)] + Entries(fields[1..], cfg[1..]);
    }
  }

  lemma NoPairs(tail: string)
    requires EndsText(tail)
    ensures Pairs(tail) == []
  {
  }

  lemma LinesAssociate(line: string, rest: string, tail: string)
    ensures (line + ("\r\n" + rest)) + tail == line + ("\r\n" + (rest + tail))
  {
    assert ("\r\n" + rest) + tail == "\r\n" + (rest + tail);
  }

  lemma LineIsLine(key: string, text: string)
    requires IsKey(key) && IsValue(text)
    ensures OneLine(key + ("=" + text)) && key + ("=" + text) != ""
  {
  }

  lemma LinesBegin(fields: seq<Field>, cfg: seq<Value>, tail: string)
    requires Keyed(fields) && |cfg| == |fields| && EndsText(tail)
    ensures var s := Lines(fields, cfg) + tail; s == "" || !IsBreak(s[0])
  {
    if fields != [] {
      assert fields[0] in fields;
      assert Lines(fields, cfg)[0] == fields[0].key[0];
    }
  }

  lemma TextReads(fields: seq<Field>, cfg: seq<Value>, tail: string)
    requires Keyed(fields) && AllFit(fields, cfg) && EndsText(tail)
    ensures Pairs(Text(fields, cfg) + tail) == Entries(fields, cfg)
  {
    hide Pairs, PairOf;
    LinesRead(fields, cfg, tail);
    LinesBegin(fields, cfg, tail);
    LineOff(SECTION, Lines(fields, cfg) + tail);
    LinesAssociate(SECTION, Lines(fields, cfg), tail);
    SectionCarriesNothing();
  }

  lemma SectionCarriesNothing()
    ensures PairOf(SECTION) == []
  {
    TrimmedIsItself(SECTION);
  }

  lemma {:induction false} EntriesTaken(fields: seq<Field>, cfg: seq<Value>, base: seq<Value>, k: nat)
    requires Distinct(fields) && AllFit(fields, cfg) && |base| == |fields| && k <= |fields|
    ensures PairsTaken(fields, Parse(base, 0), Entries(fields, cfg)[..k]) == Parse(cfg[..k] + base[k..], 0)
  {
    hide PairTaken, Distinct;
    var e := Entries(fields, cfg);
    if k == 0 {
      assert e[..0] == [] && cfg[..0] + base[0..] == base;
    } else {
      EntriesTaken(fields, cfg, base, k - 1);
      assert e[..k][..k - 1] == e[..k - 1];
      EntryTaken(fields, cfg, base, k - 1);
    }
  }

  lemma EntryTaken(fields: seq<Field>, cfg: seq<Value>, base: seq<Value>, k: nat)
    requires Distinct(fields) && AllFit(fields, cfg) && |base| == |fields| && k < |fields|
    ensures PairTaken(fields, Parse(cfg[..k] + base[k..], 0), (fields[k].key, ValueText(cfg[k])))
         == Parse(cfg[..k + 1] + base[k + 1..], 0)
  {
    hide Taken, Fits, ValueText;
    ValueComesBack(fields[k].kind, cfg[k]);
    assert RowOf(fields, fields[k].key) == k;
    assert (cfg[..k] + base[k..])[k := cfg[k]] == cfg[..k + 1] + base[k + 1..];
  }

  /** The round trip, over any base and whatever lies past the text's NUL. */
  lemma RoundTrip(fields: seq<Field>, cfg: seq<Value>, base: seq<Value>, tail: string)
    requires Keyed(fields) && Distinct(fields) && AllFit(fields, cfg) && |base| == |fields| && EndsText(tail)
    ensures PairsTaken(fields, Parse(base, 0), Pairs(Text(fields, cfg) + tail)) == Parse(cfg, 0)
  {
    TextReads(fields, cfg, tail);
    EntriesTaken(fields, cfg, base, |fields|);
    assert Entries(fields, cfg)[..|fields|] == Entries(fields, cfg);
    assert cfg[..|fields|] + base[|fields|..] == cfg;
  }

  /* ---- The table itself ---- */

  predicate PlainChar(c: char) {
    'a' <= c <= 'z' || '0' <= c <= '9' || c == '_'
  }

  predicate Plain(s: string) {
    forall c :: c in s ==> PlainChar(c)
  }

  lemma PlainIsKey(s: string)
    requires s != "" && Plain(s)
    ensures IsKey(s)
  {
    assert s[0] in s && s[|s| - 1] in s;
  }

  lemma KeysArePlain1()
    ensures Plain("id") && Plain("name") && Plain("pyro1_mode")
    ensures Plain("pyro1_value") && Plain("pyro2_mode")
  {
  }

  lemma KeysArePlain2()
    ensures Plain("pyro2_value") && Plain("units") && Plain("pyro1_refire_speed")
    ensures Plain("pyro2_refire_speed") && Plain("emergency_fire_speed")
  {
  }

  lemma KeysArePlain3()
    ensures Plain("refire_interval") && Plain("fire_gap") && Plain("estimator")
    ensures Plain("model_decides") && Plain("apogee_lockout")
  {
  }

  lemma KeysArePlain4()
    ensures Plain("standard_atmosphere") && Plain("landing_timeout") && Plain("lua_enabled")
    ensures Plain("lua_baud") && Plain("lua_pixels")
  {
  }

  lemma KeysArePlain(i: nat)
    requires i < |FIELDS|
    ensures FIELDS[i].key != "" && Plain(FIELDS[i].key)
  {
    hide Plain;
    KeysArePlain1();
    KeysArePlain2();
    KeysArePlain3();
    KeysArePlain4();
  }

  lemma TableIsKeyed()
    ensures Keyed(FIELDS)
  {
    hide FIELDS;
    forall f | f in FIELDS ensures IsKey(f.key) {
      var i :| 0 <= i < |FIELDS| && FIELDS[i] == f;
      KeysArePlain(i);
      PlainIsKey(f.key);
    }
  }

  /** Told apart by their lengths and fifth letters. */
  function Rank(s: string): int {
    1000 * |s| + (if |s| > 4 then s[4] as int else 0)
  }

  const RANKS: seq<int> := [
    2000, 4000, 10049, 11049, 10050, 11050, 5115, 18049, 18050, 20103,
    15114, 8095, 9109, 13108, 14101, 19100, 15105, 11101, 8098, 10112
  ]

  lemma RankIs(i: nat)
    requires i < |FIELDS|
    ensures |RANKS| == |FIELDS| && Rank(FIELDS[i].key) == RANKS[i]
  {
  }

  lemma RanksDiffer(i: nat, j: nat)
    requires i < j < |RANKS|
    ensures RANKS[i] != RANKS[j]
  {
  }

  lemma TableIsDistinct()
    ensures Distinct(FIELDS)
  {
    hide FIELDS, RANKS, Rank;
    forall i, j | 0 <= i < j < |FIELDS| ensures FIELDS[i].key != FIELDS[j].key {
      RankIs(i);
      RankIs(j);
      RanksDiffer(i, j);
    }
  }

  /** What a configuration's own fields can hold. */
  predicate Stored(v: Value) {
    (v.Str? ==> |v.s| <= STR_MAX) && (v.Num? ==> v.n < 0x1_0000_0000)
  }

  lemma StoredIsShort(v: Value)
    requires Stored(v)
    ensures |ValueText(v)| <= 10
  {
    if v.Num? {
      WordIsShort(v.n);
    }
  }

  lemma {:induction false} LinesFit(fields: seq<Field>, cfg: seq<Value>)
    requires |cfg| == |fields| && (forall f :: f in fields ==> |f.key| <= 20) && forall v :: v in cfg ==> Stored(v)
    ensures |Lines(fields, cfg)| <= 33 * |fields|
  {
    if fields != [] {
      assert fields[0] in fields && cfg[0] in cfg;
      StoredIsShort(cfg[0]);
      LinesFit(fields[1..], cfg[1..]);
    }
  }

  /** The text of any configuration fits the file read back. */
  lemma TextFits(cfg: seq<Value>)
    requires |cfg| == |FIELDS| && forall v :: v in cfg ==> Stored(v)
    ensures |Text(FIELDS, cfg)| < CONFIG_INI_MAX
  {
    hide FIELDS, Stored, Lines;
    forall f | f in FIELDS ensures |f.key| <= 20 {
      var i :| 0 <= i < |FIELDS| && FIELDS[i] == f;
      RankIs(i);
      RankIsSmall(f.key, i);
    }
    TableSize();
    LinesFit(FIELDS, cfg);
  }

  lemma TableSize()
    ensures |FIELDS| == 20
  {
  }

  lemma RankIsSmall(key: string, i: nat)
    requires i < |RANKS| && Rank(key) == RANKS[i]
    ensures |key| <= 20
  {
  }

  /** The board's own round trip: any configuration in range comes back, over any
      other, with nothing rejected, and its text fits the file. */
  lemma ConfigRoundTrip(cfg: seq<Value>, base: seq<Value>, tail: string)
    requires AllFit(FIELDS, cfg) && |base| == |FIELDS| && EndsText(tail)
    ensures PairsTaken(FIELDS, Parse(base, 0), Pairs(Text(FIELDS, cfg) + tail)) == Parse(cfg, 0)
    ensures |Text(FIELDS, cfg)| < CONFIG_INI_MAX
  {
    hide Pairs, PairsTaken, Text;
    TableIsKeyed();
    TableIsDistinct();
    RoundTrip(FIELDS, cfg, base, tail);
    AllFitIsStored(cfg);
    TextFits(cfg);
  }

  lemma AllFitIsStored(cfg: seq<Value>)
    requires AllFit(FIELDS, cfg)
    ensures forall v :: v in cfg ==> Stored(v)
  {
    hide Stored, Fits;
    forall v | v in cfg ensures Stored(v) {
      var i :| 0 <= i < |cfg| && cfg[i] == v;
      FitsIsStored(i, v);
    }
  }

  lemma FitsIsStored(i: nat, v: Value)
    requires i < |FIELDS| && Fits(FIELDS[i].kind, v)
    ensures Stored(v)
  {
  }

  /* ---- In place ---- */

  lemma NoneTaken(fields: seq<Field>, p: Parse, pairs: seq<Pair>)
    requires |p.cfg| == |fields|
    ensures PairsTaken(fields, p, pairs[..0]) == p
  {
  }

  lemma OneTaken(fields: seq<Field>, p: Parse, pairs: seq<Pair>, k: nat)
    requires |p.cfg| == |fields| && k < |pairs|
    ensures PairsTaken(fields, p, pairs[..k + 1]) == PairTaken(fields, PairsTaken(fields, p, pairs[..k]), pairs[k])
  {
    hide PairTaken;
    assert pairs[..k + 1][..k] == pairs[..k];
  }

  /** config_parse_ini(): buf's pairs assigned to cfg, field by field. */
  method ParseIni(fields: seq<Field>, buf: array<char>, cfg: array<Value>) returns (rejected: nat)
    requires '\0' in buf[..] && cfg.Length == |fields|
    modifies buf, cfg
    ensures Parse(cfg[..], rejected) == PairsTaken(fields, Parse(old(cfg[..]), 0), Pairs(old(buf[..])))
  {
    hide Assigned, Taken, Pairs, PairsTaken;
    rejected := 0;
    ghost var base := cfg[..];
    var pairs := ForEach(buf);
    var k := 0;
    NoneTaken(fields, Parse(base, 0), pairs);
    while k < |pairs|
      invariant k <= |pairs|
      invariant Parse(cfg[..], rejected) == PairsTaken(fields, Parse(base, 0), pairs[..k])
    {
      var i := RowOf(fields, pairs[k].0);
      if i < |fields| {
        ghost var before := cfg[..];
        var kind := fields[i].kind;
        if Taken(kind, pairs[k].1).None? {
          rejected := rejected + 1;
        }
        cfg[i] := Assigned(kind, cfg[i], pairs[k].1);
        assert cfg[..] == before[i := cfg[i]];
      }
      OneTaken(fields, Parse(base, 0), pairs, k);
      k := k + 1;
    }
    assert pairs[..k] == pairs;
  }

  /** APPEND: text at pos, with a NUL after it, if they fit below max. */
  method Append(buf: array<char>, pos: nat, max: nat, text: string) returns (next: int)
    requires pos <= max <= buf.Length
    modifies buf
    ensures next == if pos + |text| < max then pos + |text| else -1
    ensures next >= 0 ==> buf[..next] == old(buf[..pos]) + text && buf[next] == '\0'
  {
    if pos >= max || |text| >= max - pos {
      return -1;
    }
    forall i | 0 <= i < |text| {
      buf[pos + i] := text[i];
    }
    next := pos + |text|;
    buf[next] := '\0';
    assert buf[..next] == buf[..pos] + buf[pos..next];
  }

  /** config_serialize_ini(): the whole text, or -1. */
  method SerializeIni(fields: seq<Field>, cfg: seq<Value>, buf: array<char>, max: nat) returns (pos: int)
    requires |cfg| == |fields| && max <= buf.Length
    modifies buf
    ensures pos == if |Text(fields, cfg)| < max then |Text(fields, cfg)| else -1
    ensures pos >= 0 ==> buf[..pos] == Text(fields, cfg) && buf[pos] == '\0'
  {
    ghost var all := Text(fields, cfg);
    pos := Append(buf, 0, max, SECTION + "\r\n");
    SectionFirst(fields, cfg);
    var i := 0;
    while i < |fields| && pos >= 0
      invariant i <= |fields|
      invariant pos >= 0 ==> pos < max && all == buf[..pos] + Lines(fields[i..], cfg[i..]) && buf[pos] == '\0'
      invariant pos < 0 ==> pos == -1 && |all| >= max
    {
      ghost var before, rest := buf[..pos], Lines(fields[i + 1..], cfg[i + 1..]);
      var line := LineOf(fields[i], cfg[i]) + "\r\n";
      assert fields[i..][1..] == fields[i + 1..] && cfg[i..][1..] == cfg[i + 1..];
      LineThenRest(before, LineOf(fields[i], cfg[i]), rest);
      pos := Append(buf, pos, max, line);
      i := i + 1;
    }
    assert pos >= 0 ==> Lines(fields[i..], cfg[i..]) == "";
  }

  lemma SectionFirst(fields: seq<Field>, cfg: seq<Value>)
    requires |cfg| == |fields|
    ensures Text(fields, cfg) == (SECTION + "\r\n") + Lines(fields[0..], cfg[0..])
  {
    assert fields[0..] == fields && cfg[0..] == cfg;
  }

  lemma LineThenRest(before: string, line: string, rest: string)
    ensures before + (line + ("\r\n" + rest)) == (before + (line + "\r\n")) + rest
    ensures |before + (line + ("\r\n" + rest))| >= |before| + |line + "\r\n"|
  {
    assert line + ("\r\n" + rest) == (line + "\r\n") + rest;
  }
}
