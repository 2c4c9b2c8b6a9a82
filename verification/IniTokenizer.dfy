/** The one tokenizer of the .ini files (src/ini_tokenizer.h), in place over its
    buffer, and the pairs it finds. */
module IniTokenizer {
  import opened CStrings

  type Pair = (string, string)

  predicate IsBreak(c: char) {
    c == '\r' || c == '\n'
  }

  /** Where the first line ends: a line's end, a NUL, or the end. */
  function LineEnd(s: string): (e: nat)
    ensures e <= |s| && (forall i :: 0 <= i < e ==> !IsBreak(s[i]) && s[i] != '\0')
    ensures e < |s| ==> IsBreak(s[e]) || s[e] == '\0'
  {
    if s == "" || IsBreak(s[0]) || s[0] == '\0' then 0 else 1 + LineEnd(s[1..])
  }

  /** How many line ends come first. */
  function Breaks(s: string): (n: nat)
    ensures n <= |s| && (forall i :: 0 <= i < n ==> IsBreak(s[i])) && (n < |s| ==> !IsBreak(s[n]))
  {
    if s == "" || !IsBreak(s[0]) then 0 else 1 + Breaks(s[1..])
  }

  function Trimmed(s: string): string {
    TrimEnd(SkipBlanks(s))
  }

  predicate Carries(text: string) {
    text != "" && text[0] !in "[;#" && IndexOf(text, '=') < |text| && Trimmed(text[..IndexOf(text, '=')]) != ""
  }

  /** What a line carries: its key and value, or nothing. */
  function PairOf(line: string): seq<Pair> {
    var text := Trimmed(line);
    var eq := IndexOf(text, '=');
    if Carries(text) then [(Trimmed(text[..eq]), Trimmed(text[eq + 1..]))] else []
  }

  /** What follows the first line and all the line ends after it. */
  function Rest(s: string): (r: string)
    ensures s != "" && s[0] != '\0' ==> |r| < |s|
  {
    var e := LineEnd(s);
    s[e + Breaks(s[e..])..]
  }

  /** The pairs of a text, in order. */
  function Pairs(s: string): seq<Pair>
    decreases |s|
  {
    if s == "" || s[0] == '\0' then [] else PairOf(s[..LineEnd(s)]) + Pairs(Rest(s))
  }

  lemma PairsStep(s: string)
    requires s != "" && s[0] != '\0'
    ensures Pairs(s) == PairOf(s[..LineEnd(s)]) + Pairs(Rest(s))
  {
    hide PairOf, LineEnd, Rest;
  }

  /* ---- A line written is a line read ---- */

  predicate NoBlankEnds(s: string) {
    s != "" ==> !IsBlank(s[0]) && !IsBlank(s[|s| - 1])
  }

  predicate OneLine(s: string) {
    forall c :: c in s ==> !IsBreak(c) && c != '\0'
  }

  predicate IsKey(s: string) {
    s != "" && OneLine(s) && NoBlankEnds(s) && '=' !in s && s[0] !in "[;#"
  }

  predicate IsValue(s: string) {
    OneLine(s) && NoBlankEnds(s)
  }

  lemma TrimmedIsItself(s: string)
    requires NoBlankEnds(s)
    ensures Trimmed(s) == s
  {
  }

  lemma PairComesBack(key: string, value: string)
    requires IsKey(key) && IsValue(value)
    ensures PairOf(key + ("=" + value)) == [(key, value)]
  {
    var line := key + ("=" + value);
    IndexAfter(key, '=', value);
    assert line[0] == key[0];
    if value == "" {
      assert line[|line| - 1] == '=';
    } else {
      assert line[|line| - 1] == value[|value| - 1];
    }
    TrimmedIsItself(line);
    TrimmedIsItself(key);
    TrimmedIsItself(value);
  }

  lemma {:induction false} LineEndAfter(line: string, rest: string)
    requires OneLine(line) && (rest == "" || IsBreak(rest[0]))
    ensures LineEnd(line + rest) == |line|
  {
    if line == "" {
      assert line + rest == rest;
    } else {
      assert line[0] in line;
      LineEndAfter(line[1..], rest);
      assert (line + rest)[1..] == line[1..] + rest;
    }
  }

  /** A line ended by CR and LF, and then what does not begin with either. */
  lemma LineOff(line: string, rest: string)
    requires line != "" && OneLine(line) && (rest == "" || !IsBreak(rest[0]))
    ensures Pairs(line + ("\r\n" + rest)) == PairOf(line) + Pairs(rest)
  {
    hide LineEnd, Breaks, PairOf;
    var ends := "\r\n" + rest;
    var s := line + ends;
    LineEndAfter(line, ends);
    assert line[0] in line && s[0] == line[0];
    SplitAt(line, ends);
    TwoBreaks(rest);
    assert s[|line| + 2..] == ends[2..] == rest;
  }

  lemma SplitAt(a: string, b: string)
    ensures (a + b)[..|a|] == a && (a + b)[|a|..] == b
  {
  }

  lemma TwoBreaks(rest: string)
    requires rest == "" || !IsBreak(rest[0])
    ensures Breaks("\r\n" + rest) == 2
  {
    var s := "\r\n" + rest;
    assert s[1..] == "\n" + rest;
    assert s[1..][1..] == rest;
  }

  /* ---- In place ---- */

  /** ini_trim(): the blanks round the string at p, which ends at the NUL at q,
      cut; t is where it then begins. */
  method Trim(buf: array<char>, p: nat, q: nat) returns (t: nat, end: nat)
    requires p <= q < buf.Length && buf[q] == '\0' && '\0' !in buf[p..q]
    modifies buf
    ensures p <= t <= end <= q && buf[end] == '\0' && buf[t..end] == Trimmed(old(buf[p..q])) && '\0' !in buf[t..end]
    ensures forall i :: 0 <= i < buf.Length && (i < end || i >= q) ==> buf[i] == old(buf[i])
  {
    t := p;
    while IsBlank(buf[t])
      invariant p <= t <= q && SkipBlanks(buf[t..q]) == SkipBlanks(buf[p..q])
      decreases q - t
    {
      assert buf[t..q][1..] == buf[t + 1..q];
      t := t + 1;
    }
    assert SkipBlanks(buf[t..q]) == buf[t..q];
    end := q;
    ghost var was := buf[t..q];
    while end > t && IsBlank(buf[end - 1])
      invariant t <= end <= q && buf[end] == '\0' && TrimEnd(buf[t..end]) == TrimEnd(was)
      invariant buf[t..end] == was[..end - t]
      invariant forall i :: 0 <= i < buf.Length && (i < end || i >= q) ==> buf[i] == old(buf[i])
    {
      assert buf[t..end][..end - t - 1] == buf[t..end - 1];
      end := end - 1;
      buf[end] := '\0';
      assert was[..end + 1 - t][..end - t] == was[..end - t];
    }
    assert TrimEnd(buf[t..end]) == buf[t..end];
  }

  /** strchr() in the string from p to its NUL at q. */
  method Find(buf: array<char>, p: nat, q: nat, c: char) returns (k: nat)
    requires p <= q < buf.Length && buf[q] == '\0' && '\0' !in buf[p..q] && c != '\0'
    ensures p <= k <= q && k - p == IndexOf(buf[p..q], c)
  {
    k := p;
    while k < q && buf[k] != c
      invariant p <= k <= q && IndexOf(buf[p..q], c) == k - p + IndexOf(buf[k..q], c)
    {
      assert buf[k..q][1..] == buf[k + 1..q];
      k := k + 1;
    }
  }

  /** The pair of the line from p to q, where its NUL has been put. */
  method TakePair(buf: array<char>, p: nat, q: nat) returns (pair: seq<Pair>)
    requires p <= q < buf.Length && buf[q] == '\0' && '\0' !in buf[p..q]
    modifies buf
    ensures pair == PairOf(old(buf[p..q]))
    ensures forall i :: q <= i < buf.Length ==> buf[i] == old(buf[i])
  {
    hide PairOf, Carries, Trimmed, IndexOf;
    pair := [];
    ghost var whole := buf[p..q];
    var text, end := Trim(buf, p, q);
    ghost var line := buf[text..end];
    PairIs(whole, line);
    var eq := Find(buf, text, end, '=');
    if eq < end && buf[text] != '[' && buf[text] != ';' && buf[text] != '#' {
      buf[eq] := '\0';
      assert buf[text..eq] == line[..eq - text];
      assert buf[eq + 1..end] == line[eq - text + 1..];
      var key, keyEnd := Trim(buf, text, eq);
      assert buf[eq + 1..end] == line[eq - text + 1..];
      var k := buf[key..keyEnd];
      if buf[key] != '\0' {
        assert k != "";
        var value, valueEnd := Trim(buf, eq + 1, end);
        pair := [(k, buf[value..valueEnd])];
      }
    }
  }

  lemma PairIs(whole: string, text: string)
    requires text == Trimmed(whole)
    ensures var eq := IndexOf(text, '=');
            if eq < |text| && text[0] != '[' && text[0] != ';' && text[0] != '#' && Trimmed(text[..eq]) != ""
            then PairOf(whole) == [(Trimmed(text[..eq]), Trimmed(text[eq + 1..]))]
            else PairOf(whole) == []
  {
  }

  /** ini_for_each(): the pairs its callback is given, in order. */
  method ForEach(buf: array<char>) returns (pairs: seq<Pair>)
    requires '\0' in buf[..]
    modifies buf
    ensures pairs == Pairs(old(buf[..]))
  {
    hide Pairs;
    pairs := [];
    var line: nat := 0;
    ghost var text := buf[..];
    ghost var nul := FirstNul(text);
    assert text[0..] == text && [] + Pairs(text) == Pairs(text);
    while buf[line] != '\0'
      invariant line <= nul < buf.Length && forall i :: line <= i < buf.Length ==> buf[i] == text[i]
      invariant pairs + Pairs(text[line..]) == Pairs(text)
      decreases nul - line
    {
      assert buf[line..] == text[line..];
      forall i | line < i <= nul ensures buf[i..] == text[i..] {}
      line, pairs := NextLine(buf, line, nul, pairs);
    }
    NoMorePairs(text[line..]);
    assert pairs + [] == pairs;
  }

  ghost function FirstNul(s: string): (k: nat)
    requires '\0' in s
    ensures k < |s| && s[k] == '\0' && '\0' !in s[..k]
  {
    IndexOfFinds(s, '\0');
    IndexOf(s, '\0')
  }

  lemma IndexOfFinds(s: string, c: char)
    requires c in s
    ensures IndexOf(s, c) < |s|
  {
    assert s[..|s|] == s;
  }

  lemma NoMorePairs(s: string)
    requires s != "" && s[0] == '\0'
    ensures Pairs(s) == []
  {
  }

  method EndOfLine(buf: array<char>, line: nat, ghost nul: nat) returns (eol: nat)
    requires line <= nul < buf.Length && buf[nul] == '\0'
    ensures line <= eol <= nul && eol - line == LineEnd(buf[line..])
  {
    eol := line;
    while buf[eol] != '\0' && !IsBreak(buf[eol])
      invariant line <= eol <= nul && LineEnd(buf[line..]) == eol - line + LineEnd(buf[eol..])
      decreases nul - eol
    {
      assert buf[eol..][1..] == buf[eol + 1..];
      eol := eol + 1;
    }
  }

  method PastBreaks(buf: array<char>, eol: nat, ghost nul: nat) returns (next: nat)
    requires eol <= nul < buf.Length && buf[nul] == '\0'
    ensures eol <= next <= nul && next - eol == Breaks(buf[eol..])
  {
    next := eol;
    while IsBreak(buf[next])
      invariant eol <= next <= nul && Breaks(buf[eol..]) == next - eol + Breaks(buf[next..])
      decreases nul - next
    {
      assert buf[next..][1..] == buf[next + 1..];
      next := next + 1;
    }
  }

  method NextLine(buf: array<char>, line: nat, ghost nul: nat, pairs: seq<Pair>) returns (next: nat, more: seq<Pair>)
    requires line < nul < buf.Length && buf[nul] == '\0' && '\0' !in buf[line..nul]
    modifies buf
    ensures line < next <= nul && forall i :: next <= i < buf.Length ==> buf[i] == old(buf[i])
    ensures more + Pairs(old(buf[next..])) == pairs + Pairs(old(buf[line..]))
  {
    hide Pairs, PairOf, LineEnd, Breaks;
    ghost var s := buf[line..];
    PairsStep(s);
    var eol := EndOfLine(buf, line, nul);
    next := PastBreaks(buf, eol, nul);
    assert s[eol - line..] == buf[eol..] && s[..eol - line] == buf[line..eol];
    assert s[next - line..] == buf[next..];
    buf[eol] := '\0';
    var pair := TakePair(buf, line, eol);
    more := pairs + pair;
    assert pairs + (pair + Pairs(s[next - line..])) == more + Pairs(s[next - line..]);
  }
}
