/** Transcript normalisation (app/module_inference/force_alignment_processor.py): numbers are
    spelt out as Spanish words, the text is transliterated to ASCII, lower-cased, and reduced
    to letters, digits and single spaces. The two library calls it rests on,
    `num2words(n, lang='es')` and `unidecode`, are parameters here: `words` and `ascii`. */
module ForceAlignment {
  import opened Strings

  /** The length of the run of digits at the front of `s`. */
  function DigitRun(s: string): (n: nat)
    ensures n <= |s| && AllDigits(s[..n])
    ensures n < |s| ==> !IsDigit(s[n])
  {
    if s == [] || !IsDigit(s[0]) then 0
    else
      var m := DigitRun(s[1..]);
      assert s[..1 + m] == [s[0]] + s[1..][..m];
      1 + m
  }

  /** A decimal point followed by a digit starts at position `n` of `s`. */
  predicate FractionAt(s: string, n: nat) {
    n + 1 < |s| && s[n] == '.' && IsDigit(s[n + 1])
  }

  predicate NoDigit(s: string) {
    forall i | 0 <= i < |s| :: !IsDigit(s[i])
  }

  /** The words for the digits after the point: the number they form when there are two or
      more, and otherwise the word of each digit, joined by spaces. */
  function FractionWords(words: nat -> string, decimal: string): string
    requires AllDigits(decimal)
  {
    if |decimal| > 1 then words(DigitsValue(decimal))
    else Join(seq(|decimal|, i requires 0 <= i < |decimal| => words(DigitsValue([decimal[i]]))), " ")
  }

  /** Parts without digits, joined by spaces, have no digit. */
  lemma {:induction false} JoinNoDigit(parts: seq<string>)
    ensures (forall k | 0 <= k < |parts| :: NoDigit(parts[k])) ==> NoDigit(Join(parts, " "))
  {
    if |parts| > 1 {
      JoinNoDigit(parts[1..]);
      assert forall k | 1 <= k < |parts| :: parts[1..][k - 1] == parts[k];
    }
  }

  /** `transform_number_to_text(text)`: every match of `\d+\.\d+|\d+`, found from the left,
      replaced by its words: `words(int(entero)) + " coma " + ...` for a decimal, and
      `words(int(numero))` for an integer. When the words of numbers hold no digit, no digit
      is left: every number has been spelt out. */
  function TransformNumbers(words: nat -> string, text: string): (r: string)
    ensures (forall v: nat :: NoDigit(words(v))) ==> NoDigit(r)
    decreases |text|
  {
    if text == [] then []
    else if !IsDigit(text[0]) then [text[0]] + TransformNumbers(words, text[1..])
    else
      var n := DigitRun(text);
      var entero := text[..n];
      if FractionAt(text, n) then
        var tail := text[n + 1..];
        var m := DigitRun(tail);
        var decimal := tail[..m];
        JoinNoDigit(seq(|decimal|, i requires 0 <= i < |decimal| => words(DigitsValue([decimal[i]]))));
        words(DigitsValue(entero)) + " coma " + FractionWords(words, decimal)
        + TransformNumbers(words, tail[m..])
      else
        words(DigitsValue(entero)) + TransformNumbers(words, text[n..])
  }

  /** Text before the first digit is copied through. */
  lemma {:induction false} PlainPrefix(words: nat -> string, p: string, rest: string)
    requires NoDigit(p)
    ensures TransformNumbers(words, p + rest) == p + TransformNumbers(words, rest)
    decreases |p|
  {
    if p != [] {
      assert (p + rest)[0] == p[0];
      assert (p + rest)[1..] == p[1..] + rest;
      PlainPrefix(words, p[1..], rest);
    } else {
      assert p + rest == rest;
    }
  }

  /** Text without a digit is left unchanged. */
  lemma NoDigitUnchanged(words: nat -> string, text: string)
    requires NoDigit(text)
    ensures TransformNumbers(words, text) == text
  {
    PlainPrefix(words, text, []);
    assert text + [] == text;
  }

  /** The run of digits at the front of `digits + rest`, when `rest` does not go on with one. */
  lemma {:induction false} DigitRunOf(digits: string, rest: string)
    requires AllDigits(digits)
    requires rest == [] || !IsDigit(rest[0])
    ensures DigitRun(digits + rest) == |digits|
    decreases |digits|
  {
    if digits != [] {
      assert (digits + rest)[0] == digits[0];
      assert (digits + rest)[1..] == digits[1..] + rest;
      DigitRunOf(digits[1..], rest);
    } else {
      assert digits + rest == rest;
    }
  }

  /** The words of a fraction are the words of the number its digits form, whether there is
      one digit or more. */
  lemma FractionWordsValue(words: nat -> string, decimal: string)
    requires decimal != [] && AllDigits(decimal)
    ensures FractionWords(words, decimal) == words(DigitsValue(decimal))
  {
    if |decimal| == 1 {
      assert [decimal[0]] == decimal;
      var parts := seq(|decimal|, i requires 0 <= i < |decimal| => words(DigitsValue([decimal[i]])));
      assert parts == [words(DigitsValue(decimal))];
    }
  }

  /** A run of digits that no fraction follows is read as one integer. */
  lemma IntegerReads(words: nat -> string, digits: string, rest: string)
    requires digits != [] && AllDigits(digits)
    requires rest == [] || (!IsDigit(rest[0]) && !FractionAt(rest, 0))
    ensures TransformNumbers(words, digits + rest) == words(DigitsValue(digits)) + TransformNumbers(words, rest)
  {
    var text := digits + rest;
    DigitRunOf(digits, rest);
    assert text[0] == digits[0];
    assert text[..|digits|] == digits && text[|digits|..] == rest;
    assert !FractionAt(text, |digits|) by {
      if rest != [] {
        assert text[|digits|] == rest[0];
        if |rest| > 1 {
          assert text[|digits| + 1] == rest[1];
        }
      }
    }
  }

  /** The two halves of a concatenation. */
  lemma Halves(a: string, b: string)
    ensures (a + b)[..|a|] == a && (a + b)[|a|..] == b
  {
  }

  /** How `transform_number_to_text` sees digits, a point, digits: the integer run, then a
      fraction whose run of digits ends where `rest` begins. */
  lemma DecimalShape(entero: string, decimal: string, rest: string)
    requires entero != [] && AllDigits(entero) && decimal != [] && AllDigits(decimal)
    requires rest == [] || !IsDigit(rest[0])
    ensures var text := entero + "." + decimal + rest;
      && text != [] && IsDigit(text[0])
      && DigitRun(text) == |entero| && text[..|entero|] == entero && FractionAt(text, |entero|)
      && text[|entero| + 1..] == decimal + rest
      && DigitRun(decimal + rest) == |decimal|
      && (decimal + rest)[..|decimal|] == decimal && (decimal + rest)[|decimal|..] == rest
  {
    var tail := decimal + rest;
    var after := "." + tail;
    var text := entero + after;
    assert entero + "." + decimal + rest == text;
    DigitRunOf(entero, after);
    Halves(entero, after);
    Halves(".", tail);
    Halves(decimal, rest);
    assert text[0] == entero[0];
    assert text[|entero|] == '.' && text[|entero| + 1] == decimal[0];
    assert text[|entero| + 1..] == text[|entero|..][1..];
    DigitRunOf(decimal, rest);
  }

  /** Digits, a point, digits: the integer part in words, " coma ", then the fraction in words. */
  lemma DecimalReads(words: nat -> string, entero: string, decimal: string, rest: string)
    requires entero != [] && AllDigits(entero) && decimal != [] && AllDigits(decimal)
    requires rest == [] || !IsDigit(rest[0])
    ensures TransformNumbers(words, entero + "." + decimal + rest)
      == words(DigitsValue(entero)) + " coma " + words(DigitsValue(decimal)) + TransformNumbers(words, rest)
  {
    DecimalShape(entero, decimal, rest);
    FractionWordsValue(words, decimal);
  }

  /** The fraction is read as an integer, so a zero right after the point is not spoken. */
  lemma LeadingZerosDropped(words: nat -> string, entero: string, decimal: string, rest: string)
    requires entero != [] && AllDigits(entero) && decimal != [] && AllDigits(decimal)
    requires rest == [] || !IsDigit(rest[0])
    ensures TransformNumbers(words, entero + ".0" + decimal + rest) == TransformNumbers(words, entero + "." + decimal + rest)
  {
    assert entero + ".0" + decimal + rest == entero + "." + ("0" + decimal) + rest;
    assert AllDigits("0" + decimal) by {
      assert forall i | 1 <= i < |"0" + decimal| :: ("0" + decimal)[i] == decimal[i - 1];
    }
    DecimalReads(words, entero, "0" + decimal, rest);
    DecimalReads(words, entero, decimal, rest);
    DigitsValueLeadingZero(decimal);
  }

  /** The characters the class `[a-záéíóúüñ0-9\s]` lets through. */
  predicate Kept(c: char) {
    'a' <= c <= 'z' || c in "áéíóúüñ" || IsDigit(c) || IsSpace(c)
  }

  /** `re.sub(r'[^a-záéíóúüñ0-9\s]', '', s)`: the characters outside the class removed, the
      others kept in order. */
  function KeepAllowed(s: string): (r: string)
    ensures |r| <= |s|
    ensures AllKept(r)
    ensures AllKept(s) ==> r == s
    ensures (forall i | 0 <= i < |s| :: !Kept(s[i])) ==> r == []
  {
    if s == [] then []
    else
      var rest := KeepAllowed(s[1..]);
      assert AllKept(s) ==> AllKept(s[1..]) by {
        if AllKept(s) {
          assert forall i | 0 <= i < |s| - 1 :: s[1..][i] == s[i + 1];
        }
      }
      if Kept(s[0]) then KeptCons(s[0], rest); [s[0]] + rest else rest
  }

  /** Every white space character is a plain space, and none follows another. */
  predicate SingleSpaced(r: string) {
    && (forall i | 0 <= i < |r| :: IsSpace(r[i]) ==> r[i] == ' ')
    && (forall i, j | 0 <= i < |r| - 1 && j == i + 1 :: IsSpace(r[i]) ==> !IsSpace(r[j]))
  }

  predicate AllKept(s: string) {
    forall i | 0 <= i < |s| :: Kept(s[i])
  }

  /** Putting a character in front keeps a text single-spaced when the character is not white
      space, or is a plain space before a character that is not. */
  lemma ConsSingleSpaced(c: char, r: string)
    requires SingleSpaced(r)
    requires IsSpace(c) ==> c == ' ' && (r == [] || !IsSpace(r[0]))
    ensures SingleSpaced([c] + r)
  {
    var t := [c] + r;
    forall i | 0 <= i < |t|
      ensures IsSpace(t[i]) ==> t[i] == ' '
    {
      if i > 0 {
        assert t[i] == r[i - 1];
      }
    }
    forall i, j | 0 <= i < |t| - 1 && j == i + 1
      ensures IsSpace(t[i]) ==> !IsSpace(t[j])
    {
      assert t[j] == r[i];
      if i > 0 {
        assert t[i] == r[i - 1];
      }
    }
  }

  /** `re.sub(r'\s+', ' ', s)`: each maximal run of white space becomes one space. */
  function CollapseSpaces(s: string): (r: string)
    ensures |r| == 0 <==> |s| == 0
    ensures s != [] ==> r[0] == if IsSpace(s[0]) then ' ' else s[0]
    ensures SingleSpaced(r)
    ensures AllKept(s) ==> AllKept(r)
    decreases |s|
  {
    if s == [] then []
    else if IsSpace(s[0]) then
      var t := TrimStart(s[1..]);
      var rest := CollapseSpaces(t);
      ConsSingleSpaced(' ', rest);
      assert AllKept(s) ==> AllKept(t) by {
        if AllKept(s) {
          forall i | 0 <= i < |t|
            ensures Kept(t[i])
          {
            assert t[i] == s[1..][|s| - 1 - |t| + i] == s[|s| - |t| + i];
          }
        }
      }
      assert AllKept(s) ==> AllKept([' '] + rest) by {
        if AllKept(s) {
          KeptCons(' ', rest);
        }
      }
      [' '] + rest
    else
      var rest := CollapseSpaces(s[1..]);
      ConsSingleSpaced(s[0], rest);
      assert AllKept(s) ==> AllKept(s[1..]) by {
        if AllKept(s) {
          assert forall i | 0 <= i < |s| - 1 :: s[1..][i] == s[i + 1];
        }
      }
      assert AllKept(s) ==> AllKept([s[0]] + rest) by {
        if AllKept(s) {
          assert Kept(s[0]);
          KeptCons(s[0], rest);
        }
      }
      [s[0]] + rest
  }

  lemma KeptCons(c: char, r: string)
    requires Kept(c) && AllKept(r)
    ensures AllKept([c] + r)
  {
    assert forall i | 1 <= i < |[c] + r| :: ([c] + r)[i] == r[i - 1];
  }

  /** Where the slice that `strip` keeps begins: after the leading white space. */
  function StripOffset(s: string): nat {
    |s| - |TrimStart(s)|
  }

  /** `strip` keeps one slice of its argument. */
  lemma StripIsSlice(s: string)
    ensures StripOffset(s) + |Strip(s)| <= |s| && Strip(s) == s[StripOffset(s)..StripOffset(s) + |Strip(s)|]
  {
    var t := TrimStart(s);
    var k := |s| - |t|;
    var r := TrimEnd(t);
    assert Strip(s) == r;
    PrefixOfSuffix(s, k, |r|);
  }

  /** A prefix of a suffix is a middle slice. */
  lemma PrefixOfSuffix(s: string, k: nat, n: nat)
    requires k + n <= |s|
    ensures s[k..][..n] == s[k..k + n]
  {
  }

  /** Only characters of the class, and no white space but plain spaces. */
  predicate PlainSpaced(r: string) {
    forall i | 0 <= i < |r| :: Kept(r[i]) && (IsSpace(r[i]) ==> r[i] == ' ')
  }

  /** No two spaces side by side. */
  predicate NoDoubleSpace(r: string) {
    forall i, j | 0 <= i < |r| - 1 && j == i + 1 :: !(r[i] == ' ' && r[j] == ' ')
  }

  /** A slice of a single-spaced text of kept characters holds only kept characters, and no
      white space but plain spaces, never two side by side. */
  lemma SliceNormal(c: string, k: nat, n: nat)
    requires k + n <= |c| && SingleSpaced(c) && AllKept(c)
    ensures PlainSpaced(c[k..k + n]) && NoDoubleSpace(c[k..k + n])
  {
    var r := c[k..k + n];
    assert forall i | 0 <= i < n :: r[i] == c[k + i];
    assert IsSpace(' ');
  }

  /** Stripping a single-spaced text of kept characters leaves only kept characters and no
      white space but plain spaces. */
  lemma StripKept(c: string)
    requires SingleSpaced(c) && AllKept(c)
    ensures PlainSpaced(Strip(c))
  {
    StripIsSlice(c);
    SliceNormal(c, StripOffset(c), |Strip(c)|);
  }

  /** Stripping a single-spaced text of kept characters leaves no two spaces side by side. */
  lemma StripSingleSpaced(c: string)
    requires SingleSpaced(c) && AllKept(c)
    ensures NoDoubleSpace(Strip(c))
  {
    StripIsSlice(c);
    SliceNormal(c, StripOffset(c), |Strip(c)|);
  }

  /** Only characters of the class, the only white space a plain space, none at either end
      and never two side by side. */
  predicate NormalForm(r: string) {
    && PlainSpaced(r)
    && (r == [] || (r[0] != ' ' && r[|r| - 1] != ' '))
    && NoDoubleSpace(r)
  }

  /** `normalize(transcription)`: numbers in words, `unidecode`, `' '.join(s.lower().split())`,
      the characters outside the class removed, white space runs collapsed, and `strip`.
      Whatever the two library calls return, the result is letters a-z and áéíóúüñ, digits,
      and single spaces between them. */
  function Normalize(ascii: string -> string, words: nat -> string, transcription: string): (r: string)
    ensures NormalForm(r)
  {
    var t := TransformNumbers(words, transcription);
    var u := ascii(t);
    var v := Join(Words(LowerString(u)), " ");
    var c := CollapseSpaces(KeepAllowed(v));
    StripKept(c);
    StripSingleSpaced(c);
    assert IsSpace(' ');
    Strip(c)
  }

  /** `process(text)`: `normalize(text)`, so letters, digits and single spaces only. */
  function Process(ascii: string -> string, words: nat -> string, text: string): (r: string)
    ensures NormalForm(r)
  {
    Normalize(ascii, words, text)
  }

  /** A number standing alone in running text is replaced by its words, and nothing else
      changes. */
  lemma IntegerInText(words: nat -> string, before: string, digits: string, after: string)
    requires NoDigit(before) && NoDigit(after)
    requires digits != [] && AllDigits(digits)
    requires after == [] || after[0] != '.'
    ensures TransformNumbers(words, before + digits + after) == before + words(DigitsValue(digits)) + after
  {
    assert before + digits + after == before + (digits + after);
    PlainPrefix(words, before, digits + after);
    IntegerReads(words, digits, after);
    NoDigitUnchanged(words, after);
  }

  /** The pieces of "Tengo 3 manzanas": plain text, one digit, plain text. */
  lemma SentencePieces()
    ensures "Tengo " + "3" + " manzanas" == "Tengo 3 manzanas"
    ensures NoDigit("Tengo ") && NoDigit(" manzanas") && AllDigits("3") && DigitsValue("3") == 3
    ensures "Tengo " + "tres" + " manzanas" == "Tengo tres manzanas"
  {
  }

  /** "Tengo 3 manzanas": the digit is spelt out and the rest of the sentence kept. */
  lemma TransformsSentence(words: nat -> string, text: string)
    requires words(3) == "tres" && text == "Tengo 3 manzanas"
    ensures TransformNumbers(words, text) == "Tengo tres manzanas"
  {
    SentencePieces();
    IntegerInText(words, "Tengo ", "3", " manzanas");
  }

  /** The pieces of "5.99": one digit, the point, two digits. */
  lemma DecimalPieces()
    ensures "5" + "." + "99" + [] == "5.99"
    ensures AllDigits("5") && AllDigits("99") && DigitsValue("5") == 5 && DigitsValue("99") == 99
    ensures "cinco" + " coma " + "noventa y nueve" + [] == "cinco coma noventa y nueve"
  {
  }

  /** "5.99": a decimal with a two-digit fraction. */
  lemma TransformsDecimal(words: nat -> string, text: string)
    requires words(5) == "cinco" && words(99) == "noventa y nueve" && text == "5.99"
    ensures TransformNumbers(words, text) == "cinco coma noventa y nueve"
  {
    DecimalPieces();
    DecimalReads(words, "5", "99", []);
  }

  /** Text already in normal form, with no digit, that `unidecode` leaves alone, comes out of
      `normalize` unchanged. */
  lemma NormalTextIsFixed(ascii: string -> string, words: nat -> string, text: string)
    requires NormalForm(text) && NoDigit(text)
    requires ascii(text) == text
    ensures Normalize(ascii, words, text) == text
  {
    NoDigitUnchanged(words, text);
    LowerNormal(text);
    JoinWordsNormal(text);
    assert AllKept(text);
    CollapseSingleSpaced(text);
    StripNormal(text);
  }

  lemma LowerNormal(text: string)
    requires NormalForm(text) && NoDigit(text)
    ensures LowerString(text) == text
  {
    var r := LowerString(text);
    forall i | 0 <= i < |text|
      ensures r[i] == text[i]
    {
      LowerKept(text[i]);
    }
  }

  /** Lower-casing leaves every character of the class but the digits and white space other
      than a plain space alone. */
  lemma LowerKept(c: char)
    requires Kept(c) && !IsDigit(c) && (IsSpace(c) ==> c == ' ')
    ensures Lower(c) == c
  {
    if !('a' <= c <= 'z') && c != ' ' {
      assert c in "áéíóúüñ";
      assert 0xE0 <= c as int <= 0xFF;
    }
  }

  /** Where the first word of a normal text stops short of its end, one space follows it and
      then a normal, non-empty rest. */
  lemma FrontWordSpace(s: string, n: nat)
    requires NormalForm(s) && n < |s| && IsSpace(s[n])
    ensures s[n] == ' ' && n + 1 < |s| && !IsSpace(s[n + 1])
    ensures NormalForm(s[n + 1..])
  {
    assert Kept(s[n]) && (IsSpace(s[n]) ==> s[n] == ' ');
    assert n + 1 < |s|;
    assert !(s[n] == ' ' && s[n + 1] == ' ');
    NormalSuffix(s, n + 1);
  }

  /** The first word of a normal text: the whole text, or followed by one space and a
      normal rest whose words are the remaining ones. */
  lemma FrontWord(s: string)
    requires NormalForm(s) && s != []
    ensures var w := WordAtFront(s);
      && w != []
      && (|w| == |s| ==> Words(s) == [w])
      && (|w| < |s| ==> var rest := s[|w| + 1..];
            s == w + " " + rest && NormalForm(rest) && rest != [] && Words(s) == [w] + Words(rest))
  {
    var w := WordAtFront(s);
    assert !IsSpace(s[0]);
    WordsFront(s);
    if |w| < |s| {
      FrontWordSpace(s, |w|);
      var t := s[|w|..];
      assert t[0] == s[|w|] && t[1..] == s[|w| + 1..];
      WordsSkipSpace(t);
      SplitAround(s, |w|);
    } else {
      assert s[|w|..] == [];
    }
  }

  /** A text that starts with a word has that word first among its words. */
  lemma WordsFront(s: string)
    requires s != [] && !IsSpace(s[0])
    ensures Words(s) == [WordAtFront(s)] + Words(s[|WordAtFront(s)|..])
  {
  }

  /** Leading white space does not start a word. */
  lemma WordsSkipSpace(t: string)
    requires t != [] && IsSpace(t[0])
    ensures Words(t) == Words(t[1..])
  {
  }

  /** A text is what comes before a space, the space, and what comes after it. */
  lemma SplitAround(s: string, n: nat)
    requires n < |s| && s[n] == ' '
    ensures s == s[..n] + " " + s[n + 1..]
  {
  }

  /** Splitting at white space and joining with single spaces leaves a single-spaced text that
      has no space at either end as it was. */
  lemma {:induction false} JoinWordsNormal(s: string)
    requires NormalForm(s)
    ensures Join(Words(s), " ") == s
    decreases |s|
  {
    if s != [] {
      FrontWord(s);
      var w := WordAtFront(s);
      if |w| < |s| {
        var rest := s[|w| + 1..];
        JoinWordsNormal(rest);
        var ws := [w] + Words(rest);
        assert Words(rest) != [] && Words(rest)[0] == WordAtFront(rest);
        assert ws[1..] == Words(rest);
      }
    }
  }

  /** A suffix of a normal text that starts after a space is normal. */
  lemma NormalSuffix(s: string, k: nat)
    requires NormalForm(s) && 0 < k <= |s| && s[k - 1] == ' '
    ensures NormalForm(s[k..])
  {
    var t := s[k..];
    assert forall i | 0 <= i < |t| :: t[i] == s[k + i];
    if t != [] {
      assert t[0] != ' ' by {
        assert !(s[k - 1] == ' ' && s[k] == ' ');
      }
    }
  }

  /** Collapsing white space changes nothing in a text whose white space is single plain
      spaces. */
  lemma {:induction false} CollapseSingleSpaced(s: string)
    requires SingleSpaced(s)
    ensures CollapseSpaces(s) == s
    decreases |s|
  {
    if s != [] {
      var t := s[1..];
      SingleSpacedTail(s);
      CollapseSingleSpaced(t);
      assert s == [s[0]] + t;
      if IsSpace(s[0]) {
        assert s[0] == ' ';
        if t != [] {
          assert t[0] == s[1];
        }
        CollapseSpaceFront(t);
      } else {
        CollapsePlainFront(s[0], t);
      }
    }
  }

  /** A plain space before a text that does not start with white space collapses to itself. */
  lemma CollapseSpaceFront(t: string)
    requires t == [] || !IsSpace(t[0])
    ensures CollapseSpaces([' '] + t) == [' '] + CollapseSpaces(t)
  {
    var s := [' '] + t;
    assert s[1..] == t;
    assert TrimStart(t) == t;
  }

  /** A character that is not white space is copied through. */
  lemma CollapsePlainFront(c: char, t: string)
    requires !IsSpace(c)
    ensures CollapseSpaces([c] + t) == [c] + CollapseSpaces(t)
  {
    assert ([c] + t)[1..] == t;
  }

  lemma SingleSpacedTail(s: string)
    requires s != [] && SingleSpaced(s)
    ensures SingleSpaced(s[1..])
  {
    var t := s[1..];
    forall i | 0 <= i < |t|
      ensures IsSpace(t[i]) ==> t[i] == ' '
    {
      assert t[i] == s[i + 1];
    }
    forall i, j | 0 <= i < |t| - 1 && j == i + 1
      ensures IsSpace(t[i]) ==> !IsSpace(t[j])
    {
      assert t[i] == s[i + 1] && t[j] == s[j + 1];
    }
  }

  /** `strip` leaves a text with no white space at either end as it was. */
  lemma StripNormal(s: string)
    requires NormalForm(s)
    ensures Strip(s) == s
  {
    assert IsSpace(' ');
    assert TrimStart(s) == s;
  }
}
