/** Fields joined by a separator, and a line split at one. */
module Rows {

  function Join(fs: seq<string>, c: char): string
    requires fs != []
  {
    if |fs| == 1 then fs[0] else fs[0] + ([c] + Join(fs[1..], c))
  }

  function Split(s: string, c: char): (fs: seq<string>)
    ensures fs != []
  {
    if s == "" then [""]
    else if s[0] == c then [""] + Split(s[1..], c)
    else var fs := Split(s[1..], c); [[s[0]] + fs[0]] + fs[1..]
  }

  lemma {:induction false} SplitFirst(f: string, rest: string, c: char)
    requires c !in f
    ensures Split(f + ([c] + rest), c) == [f] + Split(rest, c)
  {
    var s := f + ([c] + rest);
    if f == "" {
      assert s[1..] == rest;
    } else {
      SplitFirst(f[1..], rest, c);
      assert s[1..] == f[1..] + ([c] + rest);
      assert [f[0]] + f[1..] == f;
    }
  }

  lemma {:induction false} SplitAlone(f: string, c: char)
    requires c !in f
    ensures Split(f, c) == [f]
  {
    if f != "" {
      SplitAlone(f[1..], c);
      assert [f[0]] + f[1..] == f;
    }
  }

  /** Fields without the separator are what their joined line splits into. */
  lemma {:induction false} SplitJoin(fs: seq<string>, c: char)
    requires fs != [] && forall f :: f in fs ==> c !in f
    ensures Split(Join(fs, c), c) == fs
  {
    if |fs| == 1 {
      SplitAlone(fs[0], c);
    } else {
      SplitJoin(fs[1..], c);
      SplitFirst(fs[0], Join(fs[1..], c), c);
    }
  }

  lemma {:induction false} JoinLacks(fs: seq<string>, c: char, d: char)
    requires fs != [] && d != c && forall f :: f in fs ==> d !in f
    ensures d !in Join(fs, c)
  {
    if |fs| > 1 {
      JoinLacks(fs[1..], c, d);
    }
  }

  /** A field more. */
  lemma {:induction false} JoinAppend(fs: seq<string>, f: string, c: char)
    requires fs != []
    ensures Join(fs + [f], c) == Join(fs, c) + ([c] + f)
  {
    if |fs| > 1 {
      JoinAppend(fs[1..], f, c);
      assert (fs + [f])[1..] == fs[1..] + [f];
    }
  }
}
