/**
 * String helpers shared by the model: decimal rendering of integers (Python's
 * `str(int)` and `int(str)` on plain digit strings), splitting and joining on
 * '/', the component normalisation `pathlib` applies, and substring search.
 */
module Text {
  import opened Wrappers

  predicate IsDigit(c: char) { '0' <= c <= '9' }

  function DigitChar(d: nat): (c: char)
    requires d < 10
    ensures IsDigit(c) && c as int - '0' as int == d
  {
    ('0' as int + d) as char
  }

  /** Decimal form of a natural number, as Python's `str(n)` gives it. */
  function NatToDecimal(n: nat): (s: string)
    ensures |s| >= 1
    ensures forall i :: 0 <= i < |s| ==> IsDigit(s[i])
    ensures s[0] == '0' ==> n == 0
    decreases n
  {
    if n < 10 then [DigitChar(n)] else NatToDecimal(n / 10) + [DigitChar(n % 10)]
  }

  predicate AllDigits(s: string) {
    forall i :: 0 <= i < |s| ==> IsDigit(s[i])
  }

  /** Value of a digit string read left to right (most significant first). */
  function DigitsValue(s: string): nat
    requires AllDigits(s)
  {
    if s == [] then 0 else DigitsValue(s[..|s| - 1]) * 10 + (s[|s| - 1] as int - '0' as int)
  }

  /** `int(s)` restricted to non-empty strings of ASCII digits (leading zeros allowed). */
  function ParseDecimal(s: string): (r: Option<nat>)
    ensures r.Some? <==> |s| > 0 && AllDigits(s)
  {
    if |s| > 0 && AllDigits(s) then Some(DigitsValue(s)) else None
  }

  lemma {:induction false} DigitsValueOfDecimal(n: nat)
    ensures DigitsValue(NatToDecimal(n)) == n
    decreases n
  {
    if n >= 10 {
      var s := NatToDecimal(n);
      assert s[..|s| - 1] == NatToDecimal(n / 10);
      DigitsValueOfDecimal(n / 10);
    }
  }

  /** Reading back the decimal form of `n` gives `n`. */
  lemma DecimalRoundTrip(n: nat)
    ensures ParseDecimal(NatToDecimal(n)) == Some(n)
  {
    DigitsValueOfDecimal(n);
  }

  /** Python's `s.split("/")`: the pieces between slashes, always at least one. */
  function Split(s: string): (parts: seq<string>)
    ensures |parts| >= 1
    ensures forall i :: 0 <= i < |parts| ==> '/' !in parts[i]
    decreases |s|
  {
    if s == [] then [""]
    else if s[0] == '/' then [""] + Split(s[1..])
    else
      var rest := Split(s[1..]);
      [[s[0]] + rest[0]] + rest[1..]
  }

  /** `sep.join(parts)`. */
  function Join(parts: seq<string>, sep: string): string
    requires |parts| >= 1
    decreases |parts|
  {
    if |parts| == 1 then parts[0] else parts[0] + sep + Join(parts[1..], sep)
  }

  /** A join ends with its last part. */
  lemma {:induction false} JoinEndsWith(parts: seq<string>, sep: string)
    requires |parts| >= 1
    ensures var j := Join(parts, sep);
      |parts[|parts| - 1]| <= |j| && j[|j| - |parts[|parts| - 1]|..] == parts[|parts| - 1]
    decreases |parts|
  {
    if |parts| > 1 {
      var last := parts[|parts| - 1];
      var rest := Join(parts[1..], sep);
      JoinEndsWith(parts[1..], sep);
      assert parts[1..][|parts[1..]| - 1] == last;
      var j := parts[0] + sep + rest;
      assert j[|j| - |last|..] == rest[|rest| - |last|..];
    }
  }

  lemma {:induction false} SplitWithoutSlash(a: string)
    requires '/' !in a
    ensures Split(a) == [a]
    decreases |a|
  {
    if a != [] {
      assert a[0] in a;
      SplitWithoutSlash(a[1..]);
      assert [a[0]] + a[1..] == a;
    }
  }

  lemma {:induction false} SplitAtFirstSlash(a: string, t: string)
    requires '/' !in a
    ensures Split(a + "/" + t) == [a] + Split(t)
    decreases |a|
  {
    if a == [] {
      assert a + "/" + t == ['/'] + t;
      assert (['/'] + t)[1..] == t;
    } else {
      assert (a + "/" + t)[1..] == a[1..] + "/" + t;
      SplitAtFirstSlash(a[1..], t);
      assert [a[0]] + a[1..] == a;
    }
  }

  /** Splitting a join of slash-free pieces gives the pieces back. */
  lemma {:induction false} SplitJoin(parts: seq<string>)
    requires |parts| >= 1
    requires forall i :: 0 <= i < |parts| ==> '/' !in parts[i]
    ensures Split(Join(parts, "/")) == parts
    decreases |parts|
  {
    if |parts| == 1 {
      SplitWithoutSlash(parts[0]);
    } else {
      SplitAtFirstSlash(parts[0], Join(parts[1..], "/"));
      SplitJoin(parts[1..]);
    }
  }

  /** A name `pathlib` keeps as one path component: non-empty, not ".", no '/'. */
  predicate IsComponent(c: string) {
    c != "" && c != "." && '/' !in c
  }

  /** The pieces `pathlib` keeps: it drops empty pieces and ".". */
  function Normalize(parts: seq<string>): (cs: seq<string>)
    ensures |cs| <= |parts|
    ensures forall i :: 0 <= i < |cs| ==> cs[i] != "" && cs[i] != "."
    decreases |parts|
  {
    if parts == [] then []
    else if parts[0] == "" || parts[0] == "." then Normalize(parts[1..])
    else [parts[0]] + Normalize(parts[1..])
  }

  /** Components of a relative path string as `pathlib.PurePath` parses it. */
  function PathOf(name: string): (cs: seq<string>)
    ensures forall i :: 0 <= i < |cs| ==> IsComponent(cs[i])
  {
    var parts := Split(name);
    var cs := Normalize(parts);
    NormalizeKeepsSlashFree(parts);
    cs
  }

  lemma {:induction false} NormalizeKeepsSlashFree(parts: seq<string>)
    requires forall i :: 0 <= i < |parts| ==> '/' !in parts[i]
    ensures forall i :: 0 <= i < |Normalize(parts)| ==> '/' !in Normalize(parts)[i]
    decreases |parts|
  {
    if parts != [] {
      NormalizeKeepsSlashFree(parts[1..]);
    }
  }

  lemma {:induction false} NormalizeComponents(cs: seq<string>)
    requires forall i :: 0 <= i < |cs| ==> IsComponent(cs[i])
    ensures Normalize(cs) == cs
    decreases |cs|
  {
    if cs != [] {
      NormalizeComponents(cs[1..]);
    }
  }

  /** A path string built by joining proper components parses back to them. */
  lemma PathOfJoin(cs: seq<string>)
    requires |cs| >= 1
    requires forall i :: 0 <= i < |cs| ==> IsComponent(cs[i])
    ensures PathOf(Join(cs, "/")) == cs
  {
    SplitJoin(cs);
    NormalizeComponents(cs);
  }

  /** A single proper component parses to itself. */
  lemma PathOfComponent(c: string)
    requires IsComponent(c)
    ensures PathOf(c) == [c]
  {
    SplitWithoutSlash(c);
  }

  /** `str(Path(root) / c1 / ... / cn)`: the root followed by "/c" for each component. */
  function Render(root: string, cs: seq<string>): string
  {
    if cs == [] then root else root + "/" + Join(cs, "/")
  }

  /** `sub in s` for Python strings. */
  predicate Contains(s: string, sub: string)
    decreases |s|
  {
    sub <= s || (|s| > 0 && Contains(s[1..], sub))
  }

  /** Whatever a string contains, it still contains after something is put in front of it. */
  lemma {:induction false} ContainsAfter(a: string, t: string, sub: string)
    requires Contains(t, sub)
    ensures Contains(a + t, sub)
    decreases |a|
  {
    if a == [] {
      assert a + t == t;
    } else {
      assert (a + t)[1..] == a[1..] + t;
      ContainsAfter(a[1..], t, sub);
    }
  }

  /** A joined string contains every two neighbouring parts with the separator between them. */
  lemma {:induction false} ContainsNeighbours(parts: seq<string>, sep: string, i: nat)
    requires i + 1 < |parts|
    ensures Contains(Join(parts, sep), parts[i] + sep + parts[i + 1])
    decreases i
  {
    var rest := Join(parts[1..], sep);
    if i == 0 {
      if |parts| == 2 {
        assert rest == parts[1];
      } else {
        assert rest == parts[1] + sep + Join(parts[2..], sep);
      }
      assert parts[0] + sep + parts[1] <= parts[0] + sep + rest;
    } else {
      ContainsNeighbours(parts[1..], sep, i - 1);
      ContainsAfter(parts[0] + sep, rest, parts[i] + sep + parts[i + 1]);
    }
  }

  /** A joined string contains each of its parts. */
  lemma {:induction false} ContainsPart(parts: seq<string>, sep: string, i: nat)
    requires i < |parts|
    ensures Contains(Join(parts, sep), parts[i])
    decreases i
  {
    if |parts| == 1 {
      assert parts[0] <= Join(parts, sep);
    } else if i == 0 {
      assert parts[0] <= Join(parts, sep);
    } else {
      ContainsPart(parts[1..], sep, i - 1);
      ContainsAfter(parts[0] + sep, Join(parts[1..], sep), parts[i]);
    }
  }
}
