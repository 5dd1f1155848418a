/**
 * String helpers shared by the server (Python) and the browser (JavaScript)
 * code: splitting on a one-character separator, trimming a whitespace set,
 * prefix and substring tests, ASCII case folding and decimal rendering.
 */
module Text {

  // ---------------------------------------------------------------- split

  /** `parts` joined back with `sep` between consecutive parts. */
  function Join(parts: seq<string>, sep: char): string
  {
    if |parts| == 0 then ""
    else if |parts| == 1 then parts[0]
    else parts[0] + [sep] + Join(parts[1..], sep)
  }

  /**
   * Python's `str.split(sep)` and JavaScript's `String.prototype.split(sep)`
   * for a one-character separator: never empty, no part holds the separator,
   * and joining the parts gives back the input.
   */
  function Split(s: string, sep: char): (parts: seq<string>)
    ensures |parts| >= 1
    ensures forall i :: 0 <= i < |parts| ==> sep !in parts[i]
    ensures Join(parts, sep) == s
  {
    if s == [] then [""]
    else
      var rest := Split(s[1..], sep);
      if s[0] == sep then
        assert Join([""] + rest, sep) == [sep] + Join(rest, sep) by {
          assert ([""] + rest)[1..] == rest;
        }
        assert s == [sep] + s[1..];
        [""] + rest
      else
        var head := [s[0]] + rest[0];
        assert s == [s[0]] + s[1..];
        assert ([head] + rest[1..])[1..] == rest[1..];
        [head] + rest[1..]
  }

  /** Splitting text that holds no separator gives that text alone. */
  lemma {:induction false} SplitNoSep(s: string, sep: char)
    requires sep !in s
    ensures Split(s, sep) == [s]
  {
    if s != [] {
      SplitNoSep(s[1..], sep);
    }
  }

  /** Splitting distributes over a separator: the pieces of `a` come first, then those of `b`. */
  lemma {:induction false} SplitConcat(a: string, b: string, sep: char)
    ensures Split(a + [sep] + b, sep) == Split(a, sep) + Split(b, sep)
  {
    if a == [] {
      assert [sep] + b == a + [sep] + b;
      assert ([sep] + b)[1..] == b;
    } else {
      assert (a + [sep] + b)[1..] == a[1..] + [sep] + b;
      assert (a + [sep] + b)[0] == a[0];
      SplitConcat(a[1..], b, sep);
    }
  }

  /** Split undoes Join when no part holds the separator. */
  lemma {:induction false} SplitJoin(parts: seq<string>, sep: char)
    requires |parts| >= 1
    requires forall i :: 0 <= i < |parts| ==> sep !in parts[i]
    ensures Split(Join(parts, sep), sep) == parts
  {
    if |parts| == 1 {
      SplitNoSep(parts[0], sep);
    } else {
      SplitJoin(parts[1..], sep);
      SplitConcat(parts[0], Join(parts[1..], sep), sep);
      SplitNoSep(parts[0], sep);
      assert [parts[0]] + parts[1..] == parts;
    }
  }

  // ---------------------------------------------------------------- trim

  /** Whose whitespace a trim removes: Python's `str.strip()` or JavaScript's `trim()`. */
  datatype Spaces = PythonSpaces | JsSpaces

  predicate IsSpace(ws: Spaces, c: char)
  {
    match ws
    case PythonSpaces => IsPythonSpace(c)
    case JsSpaces => IsJsSpace(c)
  }

  predicate AllSpace(s: string, ws: Spaces)
  {
    forall i :: 0 <= i < |s| ==> IsSpace(ws, s[i])
  }

  /** Drops the leading characters that belong to `ws`. */
  function TrimStart(s: string, ws: Spaces): (r: string)
    ensures |r| <= |s|
    ensures r == [] || !IsSpace(ws, r[0])
  {
    if s != [] && IsSpace(ws, s[0]) then TrimStart(s[1..], ws) else s
  }

  /** Drops the trailing characters that belong to `ws`. */
  function TrimEnd(s: string, ws: Spaces): (r: string)
    ensures |r| <= |s|
    ensures r == [] || !IsSpace(ws, r[|r| - 1])
  {
    if s != [] && IsSpace(ws, s[|s| - 1]) then TrimEnd(s[..|s| - 1], ws) else s
  }

  /** What `TrimStart` drops is a whitespace prefix: the result is a suffix of the input. */
  lemma {:induction false} TrimStartSuffix(s: string, ws: Spaces)
    ensures var r := TrimStart(s, ws);
      r == s[|s| - |r|..] && AllSpace(s[..|s| - |r|], ws)
  {
    if s != [] && IsSpace(ws, s[0]) {
      TrimStartSuffix(s[1..], ws);
      var r := TrimStart(s[1..], ws);
      assert s[..|s| - |r|] == [s[0]] + s[1..][..|s| - 1 - |r|];
    }
  }

  /** What `TrimEnd` drops is a whitespace suffix: the result is a prefix of the input. */
  lemma {:induction false} TrimEndPrefix(s: string, ws: Spaces)
    ensures var r := TrimEnd(s, ws);
      r == s[..|r|] && AllSpace(s[|r|..], ws)
  {
    if s != [] && IsSpace(ws, s[|s| - 1]) {
      var front := s[..|s| - 1];
      TrimEndPrefix(front, ws);
      var r := TrimEnd(front, ws);
      assert TrimEnd(s, ws) == r;
      assert front[..|r|] == s[..|r|];
      var tail := s[|r|..];
      forall i | 0 <= i < |tail|
        ensures IsSpace(ws, tail[i])
      {
        if i < |tail| - 1 {
          assert tail[i] == front[|r|..][i];
        }
      }
    }
  }

  /** Python's `str.strip()` and JavaScript's `trim()`, for the whitespace set `ws`. */
  function Trim(s: string, ws: Spaces): string
  {
    TrimEnd(TrimStart(s, ws), ws)
  }

  /**
   * The trimmed text is characterised by the input alone: whatever
   * whitespace surrounds a core that neither starts nor ends with
   * whitespace, trimming gives exactly that core.
   */
  lemma {:induction false} TrimUnique(pre: string, core: string, post: string, ws: Spaces)
    requires AllSpace(pre, ws) && AllSpace(post, ws)
    requires core == [] || (!IsSpace(ws, core[0]) && !IsSpace(ws, core[|core| - 1]))
    ensures Trim(pre + core + post, ws) == core
  {
    var rest := core + post;
    assert pre + core + post == pre + rest;
    TrimStartPadded(pre, rest, ws);
    if core == [] {
      assert rest == post;
      TrimStartAll(post, ws);
    } else {
      TrimStartKeeps(rest, ws);
      TrimEndPadded(core, post, ws);
    }
  }

  lemma TrimStartKeeps(s: string, ws: Spaces)
    requires s != [] && !IsSpace(ws, s[0])
    ensures TrimStart(s, ws) == s
  {
  }

  lemma {:induction false} TrimStartPadded(pre: string, rest: string, ws: Spaces)
    requires AllSpace(pre, ws)
    ensures TrimStart(pre + rest, ws) == TrimStart(rest, ws)
  {
    if pre != [] {
      assert (pre + rest)[1..] == pre[1..] + rest;
      TrimStartPadded(pre[1..], rest, ws);
    } else {
      assert pre + rest == rest;
    }
  }

  lemma {:induction false} TrimStartAll(s: string, ws: Spaces)
    requires AllSpace(s, ws)
    ensures TrimStart(s, ws) == [] && TrimEnd([], ws) == []
  {
    if s != [] {
      TrimStartAll(s[1..], ws);
    }
  }

  lemma {:induction false} TrimEndPadded(core: string, post: string, ws: Spaces)
    requires AllSpace(post, ws)
    requires core == [] || !IsSpace(ws, core[|core| - 1])
    ensures TrimEnd(core + post, ws) == core
  {
    if post == [] {
      assert core + post == core;
    } else {
      var s := core + post;
      assert s[..|s| - 1] == core + post[..|post| - 1];
      TrimEndPadded(core, post[..|post| - 1], ws);
    }
  }

  /** Trimming twice is trimming once. */
  lemma TrimIdempotent(s: string, ws: Spaces)
    ensures Trim(Trim(s, ws), ws) == Trim(s, ws)
  {
    var t := Trim(s, ws);
    TrimEndPrefix(TrimStart(s, ws), ws);
    assert t == [] + t + [];
    TrimUnique([], t, [], ws);
  }

  /** Python's `str.isspace()`: the characters `str.strip()` without arguments removes. */
  predicate IsPythonSpace(c: char)
  {
    || '\t' <= c <= '\r' || '\U{1C}' <= c <= ' ' || c == '\U{85}' || c == '\U{A0}'
    || c == '\U{1680}' || '\U{2000}' <= c <= '\U{200A}' || c == '\U{2028}' || c == '\U{2029}'
    || c == '\U{202F}' || c == '\U{205F}' || c == '\U{3000}'
  }

  /** ECMAScript WhiteSpace and LineTerminator: the characters `String.prototype.trim()` removes. */
  predicate IsJsSpace(c: char)
  {
    || '\t' <= c <= '\r' || c == ' ' || c == '\U{A0}'
    || c == '\U{1680}' || '\U{2000}' <= c <= '\U{200A}' || c == '\U{2028}' || c == '\U{2029}'
    || c == '\U{202F}' || c == '\U{205F}' || c == '\U{3000}' || c == '\U{FEFF}'
  }

  function PyStrip(s: string): string { Trim(s, PythonSpaces) }

  function JsTrim(s: string): string { Trim(s, JsSpaces) }

  // ---------------------------------------------------------------- search

  predicate StartsWith(s: string, prefix: string)
  {
    |prefix| <= |s| && s[..|prefix|] == prefix
  }

  /** `needle` occurs somewhere in `s` (Python `in`, JavaScript `includes`). */
  predicate Contains(s: string, needle: string)
  {
    exists i :: 0 <= i <= |s| && StartsWith(s[i..], needle)
  }

  /** A witness position is enough to show containment. */
  lemma ContainsAt(s: string, needle: string, i: int)
    requires 0 <= i <= |s| - |needle| && s[i..i + |needle|] == needle
    ensures Contains(s, needle)
  {
    assert StartsWith(s[i..], needle);
  }

  function LowerChar(c: char): char
  {
    if 'A' <= c <= 'Z' then (c as int + 32) as char else c
  }

  /** ASCII lower-casing, character by character. */
  function Lower(s: string): (r: string)
    ensures |r| == |s|
    ensures forall i :: 0 <= i < |s| ==> r[i] == LowerChar(s[i])
  {
    if s == [] then [] else [LowerChar(s[0])] + Lower(s[1..])
  }

  /** Case-insensitive containment, as Django's `icontains` on an ASCII collation. */
  predicate ContainsIgnoreCase(s: string, needle: string)
  {
    Contains(Lower(s), Lower(needle))
  }

  // ---------------------------------------------------------------- numbers

  function Digit(d: int): char
    requires 0 <= d <= 9
  {
    ['0', '1', '2', '3', '4', '5', '6', '7', '8', '9'][d]
  }

  function DigitValue(c: char): int
  {
    if '0' <= c <= '9' then c as int - '0' as int else 0
  }

  function Pow10(w: nat): (p: nat)
    ensures p >= 1
  {
    if w == 0 then 1 else 10 * Pow10(w - 1)
  }

  /** `n` written with exactly `width` decimal digits, zero-padded (`%0*d`). */
  function Pad(n: nat, width: nat): (s: string)
    ensures |s| == width
    ensures forall i :: 0 <= i < |s| ==> '0' <= s[i] <= '9'
  {
    if width == 0 then "" else Pad(n / 10, width - 1) + [Digit(n % 10)]
  }

  /** The number a string of decimal digits denotes. */
  function Value(s: string): nat
  {
    if s == [] then 0 else 10 * Value(s[..|s| - 1]) + DigitValue(s[|s| - 1])
  }

  /** Reading back a zero-padded number gives the number, when it fits the width. */
  lemma {:induction false} PadValue(n: nat, width: nat)
    requires n < Pow10(width)
    ensures Value(Pad(n, width)) == n
  {
    if width > 0 {
      var p := Pow10(width - 1);
      assert Pow10(width) == 10 * p;
      TenthBelow(n, p);
      PadValue(n / 10, width - 1);
      var front, last := Pad(n / 10, width - 1), Digit(n % 10);
      var s := front + [last];
      assert Pad(n, width) == s;
      assert s[..|s| - 1] == front && s[|s| - 1] == last;
      assert DigitValue(last) == n % 10;
    }
  }

  /** Dropping the last decimal digit keeps a number below the next smaller power. */
  lemma TenthBelow(n: nat, p: nat)
    requires n < 10 * p
    ensures n / 10 < p
  {
  }

  /** JavaScript's rendering of a non-negative integer, e.g. in a template replacement. */
  function Decimal(n: nat): (s: string)
    ensures |s| >= 1
    ensures forall i :: 0 <= i < |s| ==> '0' <= s[i] <= '9'
  {
    if n < 10 then [Digit(n)] else Decimal(n / 10) + [Digit(n % 10)]
  }
}
