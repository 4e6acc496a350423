/** The parts of Python's `str` that the modelled code relies on: `isspace`,
    `strip`, `split`, `join`, `replace`, `lower`/`upper`, `removesuffix`,
    `endswith`, `int(...)` and the code-point order `sorted` uses on strings. */
module Strings {
  import opened Common

  /** `str.isspace()` for one character. */
  predicate IsSpace(c: char) {
    var n := c as int;
    n == 32 || 9 <= n <= 13 || 28 <= n <= 31 || n == 0x85 || n == 0xA0 || n == 0x1680
    || 0x2000 <= n <= 0x200A || n == 0x2028 || n == 0x2029 || n == 0x202F || n == 0x205F
    || n == 0x3000
  }

  predicate IsDigit(c: char) {
    '0' <= c <= '9'
  }

  predicate AllDigits(s: string) {
    forall i | 0 <= i < |s| :: IsDigit(s[i])
  }

  /** The value of a run of decimal digits, read left to right. */
  function DigitsValue(s: string): nat
    requires AllDigits(s)
  {
    if s == [] then 0 else 10 * DigitsValue(s[..|s| - 1]) + (s[|s| - 1] as int - '0' as int)
  }

  /** Leading zeros do not change the value of a digit run. */
  lemma {:induction false} DigitsValueLeadingZero(s: string)
    requires AllDigits(s)
    ensures DigitsValue("0" + s) == DigitsValue(s)
  {
    if s != [] {
      assert ("0" + s)[..|"0" + s| - 1] == "0" + s[..|s| - 1];
      DigitsValueLeadingZero(s[..|s| - 1]);
    } else {
      assert "0" + s == "0";
    }
  }

  /** `s.lstrip()` */
  function TrimStart(s: string): (r: string)
    ensures |r| <= |s| && r == s[|s| - |r|..]
    ensures forall i | 0 <= i < |s| - |r| :: IsSpace(s[i])
    ensures r == [] || !IsSpace(r[0])
  {
    if s != [] && IsSpace(s[0]) then TrimStart(s[1..]) else s
  }

  /** `s.rstrip()` */
  function TrimEnd(s: string): (r: string)
    ensures |r| <= |s| && r == s[..|r|]
    ensures forall i | |r| <= i < |s| :: IsSpace(s[i])
    ensures r == [] || !IsSpace(r[|r| - 1])
  {
    if s != [] && IsSpace(s[|s| - 1]) then TrimEnd(s[..|s| - 1]) else s
  }

  /** `s.strip()`: what remains once the white space at both ends is gone. */
  function Strip(s: string): (r: string)
    ensures r == [] || (!IsSpace(r[0]) && !IsSpace(r[|r| - 1]))
  {
    var t := TrimStart(s);
    var r := TrimEnd(t);
    assert r != [] ==> r[0] == t[0];
    r
  }

  /** A string with no white space at either end is its own `strip()`. */
  lemma StripKeeps(s: string)
    requires s == [] || (!IsSpace(s[0]) && !IsSpace(s[|s| - 1]))
    ensures Strip(s) == s
  {
  }

  function EndsWith(s: string, suffix: string): bool {
    |suffix| <= |s| && s[|s| - |suffix|..] == suffix
  }

  function StartsWith(s: string, prefix: string): bool {
    |prefix| <= |s| && s[..|prefix|] == prefix
  }

  /** `s.removesuffix(suffix)` */
  function RemoveSuffix(s: string, suffix: string): (r: string)
    ensures EndsWith(s, suffix) && suffix != [] ==> r + suffix == s
    ensures !EndsWith(s, suffix) || suffix == [] ==> r == s
  {
    if suffix != [] && EndsWith(s, suffix) then s[..|s| - |suffix|] else s
  }

  /** Index of the first `c` in `s`. */
  function IndexOf(s: string, c: char): (i: nat)
    requires c in s
    ensures i < |s| && s[i] == c && c !in s[..i]
  {
    if s[0] == c then 0 else 1 + IndexOf(s[1..], c)
  }

  /** `s.split(sep)` for a one-character separator: never empty, and no part holds `sep`. */
  function Split(s: string, sep: char): (parts: seq<string>)
    ensures |parts| >= 1
    ensures forall k | 0 <= k < |parts| :: sep !in parts[k]
    decreases |s|
  {
    if sep !in s then [s]
    else
      var i := IndexOf(s, sep);
      [s[..i]] + Split(s[i + 1..], sep)
  }

  /** `sep.join(parts)` */
  function Join(parts: seq<string>, sep: string): string {
    if parts == [] then []
    else if |parts| == 1 then parts[0]
    else parts[0] + sep + Join(parts[1..], sep)
  }

  /** Splitting and joining back on the same character restores the string. */
  lemma {:induction false} JoinSplit(s: string, sep: char)
    ensures Join(Split(s, sep), [sep]) == s
    decreases |s|
  {
    if sep in s {
      var i := IndexOf(s, sep);
      var parts, rest := Split(s, sep), Split(s[i + 1..], sep);
      JoinSplit(s[i + 1..], sep);
      assert parts[0] == s[..i] && parts[1..] == rest;
      assert Join(parts, [sep]) == s[..i] + [sep] + Join(rest, [sep]);
      assert s == s[..i] + [sep] + s[i + 1..];
    }
  }

  /** A string with no separator has one part, itself. */
  lemma SplitNoSeparator(s: string, sep: char)
    requires sep !in s
    ensures Split(s, sep) == [s]
  {
  }

  /** Splitting `a + [sep] + b` where `a` holds no separator gives `a`, then the parts of `b`. */
  lemma SplitAt(a: string, sep: char, b: string)
    requires sep !in a
    ensures Split(a + [sep] + b, sep) == [a] + Split(b, sep)
  {
    var s := a + [sep] + b;
    assert s[..|a|] == a && s[|a|] == sep;
    var i := IndexOf(s, sep);
    if i > |a| {
      assert false;
    }
    assert s[..i] == a;
    assert s[i + 1..] == b;
  }

  /** The last part of splitting `a + [sep] + b`, where `b` holds no separator, is `b`. */
  lemma {:induction false} SplitLast(a: string, sep: char, b: string)
    requires sep !in b
    ensures var parts := Split(a + [sep] + b, sep); parts[|parts| - 1] == b
    decreases |a|
  {
    var parts := Split(a + [sep] + b, sep);
    if sep !in a {
      SplitAt(a, sep, b);
      SplitNoSeparator(b, sep);
      assert parts == [a] + [b];
    } else {
      var i := IndexOf(a, sep);
      var rest := a[i + 1..] + [sep] + b;
      assert a + [sep] + b == a[..i] + [sep] + rest;
      SplitAt(a[..i], sep, rest);
      var tail := Split(rest, sep);
      assert parts == [a[..i]] + tail;
      SplitLast(a[i + 1..], sep, b);
      assert parts[|parts| - 1] == tail[|tail| - 1];
    }
  }

  /** The first run of non-space characters at the front of `s`. */
  function WordAtFront(s: string): (w: string)
    ensures |w| <= |s| && w == s[..|w|]
    ensures forall i | 0 <= i < |w| :: !IsSpace(s[i])
    ensures |w| < |s| ==> IsSpace(s[|w|])
  {
    if s == [] || IsSpace(s[0]) then [] else [s[0]] + WordAtFront(s[1..])
  }

  predicate NoSpace(w: string) {
    forall i | 0 <= i < |w| :: !IsSpace(w[i])
  }

  /** `s.split()` with no argument: the maximal runs of non-space characters. */
  function Words(s: string): (ws: seq<string>)
    ensures forall k | 0 <= k < |ws| :: ws[k] != [] && NoSpace(ws[k])
    decreases |s|
  {
    if s == [] then []
    else if IsSpace(s[0]) then Words(s[1..])
    else
      var w := WordAtFront(s);
      [w] + Words(s[|w|..])
  }

  /** `s.replace(pat, rep)`: every non-overlapping occurrence, scanned from the left. */
  function ReplaceAll(s: string, pat: string, rep: string): string
    requires pat != []
    decreases |s|
  {
    if |s| < |pat| then s
    else if s[..|pat|] == pat then rep + ReplaceAll(s[|pat|..], pat, rep)
    else [s[0]] + ReplaceAll(s[1..], pat, rep)
  }

  /** Whether `pat` occurs anywhere in `s`. */
  predicate Occurs(pat: string, s: string) {
    StartsWith(s, pat) || (s != [] && Occurs(pat, s[1..]))
  }

  /** Replacing a pattern in `stem + pat` rewrites only the final copy, when `stem` holds no
      copy of `pat` and `pat` cannot overlap itself (its first character never recurs in it). */
  lemma {:induction false} ReplaceAllAppended(stem: string, pat: string, rep: string)
    requires pat != [] && pat[0] !in pat[1..]
    requires !Occurs(pat, stem)
    ensures ReplaceAll(stem + pat, pat, rep) == stem + rep
    decreases |stem|
  {
    var s := stem + pat;
    if stem == [] {
      assert s == pat;
      assert ReplaceAll(s, pat, rep) == rep + ReplaceAll([], pat, rep);
    } else {
      NotAtFront(stem, pat);
      assert s[1..] == stem[1..] + pat;
      assert ReplaceAll(s, pat, rep) == [s[0]] + ReplaceAll(s[1..], pat, rep);
      ReplaceAllAppended(stem[1..], pat, rep);
    }
  }

  /** No copy of such a `pat` starts at the front of `stem + pat` for a non-empty `stem`. */
  lemma NotAtFront(stem: string, pat: string)
    requires pat != [] && pat[0] !in pat[1..]
    requires stem != [] && !Occurs(pat, stem)
    ensures (stem + pat)[..|pat|] != pat
  {
    var s := stem + pat;
    assert !StartsWith(stem, pat);
    if |stem| >= |pat| {
      assert s[..|pat|] == stem[..|pat|];
    } else {
      assert s[|stem|] == pat[0];
      assert pat[|stem|] == pat[1..][|stem| - 1];
    }
  }

  /** A pattern whose first character does not occur in `s` does not occur in `s`. */
  lemma {:induction false} NoFirstCharNoOccurrence(pat: string, s: string)
    requires pat != [] && pat[0] !in s
    ensures !Occurs(pat, s)
  {
    if s != [] {
      assert s[0] != pat[0];
      assert s[1..] == s[1..] && forall c | c in s[1..] :: c in s;
      NoFirstCharNoOccurrence(pat, s[1..]);
    }
  }

  /** `str.lower()` for one character: ASCII and the Latin-1 letters. */
  function Lower(c: char): char {
    var n := c as int;
    if 'A' <= c <= 'Z' || (0xC0 <= n <= 0xDE && n != 0xD7) then (n + 32) as char else c
  }

  /** `str.upper()` for one character: ASCII and the Latin-1 letters that map to one letter. */
  function Upper(c: char): char {
    var n := c as int;
    if 'a' <= c <= 'z' || (0xE0 <= n <= 0xFE && n != 0xF7) then (n - 32) as char else c
  }

  /** A letter that has a case. */
  predicate IsCased(c: char) {
    Lower(c) != c || Upper(c) != c
  }

  function LowerString(s: string): (r: string)
    ensures |r| == |s| && forall i | 0 <= i < |s| :: r[i] == Lower(s[i])
  {
    if s == [] then [] else [Lower(s[0])] + LowerString(s[1..])
  }

  /** `s.capitalize()`: the first character upper-cased, the rest lower-cased. */
  function Capitalize(s: string): (r: string)
    ensures |r| == |s|
    ensures s != [] ==> r[0] == Upper(s[0]) && r[1..] == LowerString(s[1..])
  {
    if s == [] then [] else [Upper(s[0])] + LowerString(s[1..])
  }

  /** `s.title()`: a cased character is upper-cased after a character that is not
      cased (or at the start), and lower-cased after a cased one. */
  function Title(s: string): (r: string)
    ensures |r| == |s|
    ensures forall i | 0 <= i < |s| ::
      r[i] == if i > 0 && IsCased(s[i - 1]) then Lower(s[i]) else Upper(s[i])
  {
    TitleAfter(s, false)
  }

  function TitleAfter(s: string, prevCased: bool): (r: string)
    ensures |r| == |s|
    ensures forall i | 0 <= i < |s| ::
      r[i] == if (if i == 0 then prevCased else IsCased(s[i - 1])) then Lower(s[i]) else Upper(s[i])
  {
    if s == [] then []
    else [if prevCased then Lower(s[0]) else Upper(s[0])] + TitleAfter(s[1..], IsCased(s[0]))
  }

  /** Python's `<` on strings: code-point lexicographic order. */
  predicate Less(a: string, b: string) {
    if a == [] then b != []
    else if b == [] then false
    else if a[0] != b[0] then a[0] < b[0]
    else Less(a[1..], b[1..])
  }

  lemma {:induction false} LessIrreflexive(a: string)
    ensures !Less(a, a)
  {
    if a != [] {
      LessIrreflexive(a[1..]);
    }
  }

  lemma {:induction false} LessTransitive(a: string, b: string, c: string)
    requires Less(a, b) && Less(b, c)
    ensures Less(a, c)
  {
    if a != [] && b != [] && c != [] && a[0] == b[0] == c[0] {
      LessTransitive(a[1..], b[1..], c[1..]);
    }
  }

  lemma {:induction false} LessTotal(a: string, b: string)
    requires a != b
    ensures Less(a, b) || Less(b, a)
  {
    if a != [] && b != [] && a[0] == b[0] {
      assert a == [a[0]] + a[1..] && b == [b[0]] + b[1..];
      LessTotal(a[1..], b[1..]);
    }
  }

  function Pow10(width: nat): nat {
    if width == 0 then 1 else 10 * Pow10(width - 1)
  }

  /** `n` written in decimal with exactly `width` digits, zero-padded on the left
      (`"%0*d" % (width, n)` for `n` below `10 ** width`). */
  function PadDigits(n: nat, width: nat): (s: string)
    ensures |s| == width && AllDigits(s)
  {
    if width == 0 then [] else PadDigits(n / 10, width - 1) + [('0' as int + n % 10) as char]
  }

  /** Reading a zero-padded numeral back gives the number. */
  lemma {:induction false} PadDigitsValue(n: nat, width: nat)
    requires n < Pow10(width)
    ensures DigitsValue(PadDigits(n, width)) == n
  {
    if width > 0 {
      var s := PadDigits(n, width);
      PadDigitsValue(n / 10, width - 1);
      assert s[..|s| - 1] == PadDigits(n / 10, width - 1);
    }
  }

  /** `int(s)` on a string of ASCII digits with an optional sign and surrounding
      white space; any other string raises `ValueError`. */
  function ParseInt(s: string): Option<int> {
    var t := Strip(s);
    if t == [] then None
    else if t[0] == '+' || t[0] == '-' then
      if |t| > 1 && AllDigits(t[1..]) then
        var v: int := DigitsValue(t[1..]);
        Some(if t[0] == '-' then -v else v)
      else None
    else if AllDigits(t) then Some(DigitsValue(t))
    else None
  }

  /** A plain run of digits parses to its value. */
  lemma ParseIntDigits(s: string)
    requires AllDigits(s) && s != []
    ensures ParseInt(s) == Some(DigitsValue(s))
  {
    assert IsDigit(s[0]) && IsDigit(s[|s| - 1]);
    StripKeeps(s);
  }

  /** `int` reads a zero-padded numeral as the number it pads. */
  lemma ParsePadded(n: nat, width: nat)
    requires 0 < width && n < Pow10(width)
    ensures ParseInt(PadDigits(n, width)) == Some(n)
  {
    PadDigitsValue(n, width);
    ParseIntDigits(PadDigits(n, width));
  }
}
