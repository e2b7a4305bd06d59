/** Unsigned JSON numbers (section 6 of RFC 8259): their grammar and their exact values. */
module JsonNumber {
  import opened Wrappers
  import opened Digits
  import opened Decimals

  function Signed(sign: string, digits: string): int
    requires AllDigits(digits)
  {
    var magnitude: int := Value(digits);
    if sign == "-" then -magnitude else magnitude
  }

  datatype Exponent = Exponent(marker: char, sign: string, digits: string) {
    predicate WellFormed() {
      marker in {'e', 'E'} && sign in {"", "+", "-"} && digits != "" && AllDigits(digits)
    }

    function Power(): int
      requires WellFormed()
    {
      Signed(sign, digits)
    }
  }

  /** int [ frac ] [ exp ] */
  datatype Literal = Literal(whole: string, fraction: Option<string>, exponent: Option<Exponent>) {

    predicate WellFormed() {
      && whole != "" && AllDigits(whole) && (|whole| > 1 ==> whole[0] != '0')
      && (fraction.Some? ==> fraction.value != "" && AllDigits(fraction.value))
      && (exponent.Some? ==> exponent.value.WellFormed())
    }

    function Text(): string {
      Mantissa() + if exponent.Some? then [exponent.value.marker] + Tail() else ""
    }

    function Mantissa(): string {
      if fraction.Some? then whole + "." + fraction.value else whole
    }

    function Tail(): string {
      if exponent.Some? then exponent.value.sign + exponent.value.digits else ""
    }

    function FractionDigits(): string {
      if fraction.Some? then fraction.value else ""
    }

    /** The digits of the mantissa, read as one integer ... */
    function Digits(): (n: nat)
      requires WellFormed()
    {
      Value(whole + FractionDigits())
    }

    /** ... which is to be multiplied by ten to this power. */
    function Power(): int
      requires WellFormed()
    {
      (if exponent.Some? then exponent.value.Power() else 0) - |FractionDigits()|
    }

    ghost function Number(): real
      requires WellFormed()
    {
      Scaled(Digits(), Power())
    }
  }

  /** The number a literal writes: all its digits, times ten to its exponent less the digits after the point. */
  lemma NumberOfLiteral(lit: Literal)
    requires lit.WellFormed() && lit.exponent.Some?
    ensures AllDigits(lit.whole + lit.FractionDigits())
    ensures var shift: int := Value(lit.exponent.value.digits);
      lit.Number() == Scaled(Value(lit.whole + lit.FractionDigits()),
                             (if lit.exponent.value.sign == "-" then -shift else shift) - |lit.FractionDigits()|)
  {
  }

  // ---------------------------------------------------------------- cutting a text at its separators

  function Lower(c: char): char {
    if 'A' <= c <= 'Z' then (c as int + 32) as char else c
  }

  function ToLower(s: string): (r: string)
    ensures |r| == |s| && forall i | 0 <= i < |s| :: r[i] == Lower(s[i])
  {
    seq(|s|, i requires 0 <= i < |s| => Lower(s[i]))
  }

  /** The parts of `s` before and after the first `separator`, and whether there is one. */
  function Cut(s: string, separator: char): (r: (string, string, bool))
    ensures r.2 ==> s == r.0 + [separator] + r.1
    ensures !r.2 ==> r.0 == s && r.1 == ""
    ensures separator !in r.0
  {
    if s == "" then ("", "", false)
    else if s[0] == separator then ("", s[1..], true)
    else var rest := Cut(s[1..], separator); ([s[0]] + rest.0, rest.1, rest.2)
  }

  /** What the first cut yields, whenever the text is split in any way at a separator. */
  lemma {:induction false} CutAt(before: string, separator: char, after: string)
    requires separator !in before
    ensures Cut(before + [separator] + after, separator) == (before, after, true)
  {
    var s := before + [separator] + after;
    if before == "" {
      assert s[1..] == after;
    } else {
      assert s[1..] == before[1..] + [separator] + after;
      CutAt(before[1..], separator, after);
      assert s[0] == before[0] && [before[0]] + before[1..] == before;
    }
  }

  lemma {:induction false} CutNowhere(s: string, separator: char)
    requires separator !in s
    ensures Cut(s, separator) == (s, "", false)
  {
    if s != "" {
      CutNowhere(s[1..], separator);
    }
  }

  /** Free of the letters that lower-casing can produce. */
  predicate NoLetters(s: string) {
    forall i | 0 <= i < |s| :: !('A' <= s[i] <= 'Z') && !('a' <= s[i] <= 'z')
  }

  lemma LowerAround(before: string, marker: char, after: string)
    requires NoLetters(before) && NoLetters(after) && marker in {'e', 'E'}
    ensures ToLower(before + [marker] + after) == before + "e" + after
  {
  }

  lemma LowerKeeps(s: string)
    requires NoLetters(s)
    ensures ToLower(s) == s
  {
  }

  /** Undoes lower-casing around a marker. */
  lemma LowerInverse(text: string, before: string, after: string)
    requires NoLetters(before) && NoLetters(after) && ToLower(text) == before + "e" + after
    ensures text[|before|] in {'e', 'E'} && text == before + [text[|before|]] + after
  {
    var lower, marker := ToLower(text), text[|before|];
    assert Lower(marker) == lower[|before|] == 'e';
    forall i | 0 <= i < |text| ensures text[i] == (before + [marker] + after)[i] {
      assert lower[i] == Lower(text[i]) && lower[i] == (before + "e" + after)[i];
      if i < |before| {
        assert lower[i] == before[i];
      } else if i > |before| {
        assert lower[i] == after[i - |before| - 1];
      }
    }
  }

  lemma LowerInverseWhole(text: string, s: string)
    requires NoLetters(s) && ToLower(text) == s
    ensures text == s
  {
    forall i | 0 <= i < |text| ensures text[i] == s[i] {
      assert s[i] == Lower(text[i]);
    }
  }

  lemma PartsHaveNoLetters(lit: Literal)
    requires lit.WellFormed()
    ensures NoLetters(lit.Mantissa()) && NoLetters(lit.Tail())
  {
  }

  /** The text of a literal determines its parts, up to the case of the exponent marker. */
  lemma LiteralParts(lit: Literal)
    requires lit.WellFormed()
    ensures Cut(ToLower(lit.Text()), 'e') == (lit.Mantissa(), lit.Tail(), lit.exponent.Some?)
    ensures Cut(lit.Mantissa(), '.') == (lit.whole, lit.FractionDigits(), lit.fraction.Some?)
  {
    PartsHaveNoLetters(lit);
    MantissaParts(lit);
    if lit.exponent.Some? {
      LowerAround(lit.Mantissa(), lit.exponent.value.marker, lit.Tail());
      assert lit.Text() == lit.Mantissa() + [lit.exponent.value.marker] + lit.Tail();
      CutAt(lit.Mantissa(), 'e', lit.Tail());
    } else {
      assert lit.Text() == lit.Mantissa();
      LowerKeeps(lit.Mantissa());
      CutNowhere(lit.Mantissa(), 'e');
    }
  }

  lemma MantissaParts(lit: Literal)
    requires lit.WellFormed()
    ensures Cut(lit.Mantissa(), '.') == (lit.whole, lit.FractionDigits(), lit.fraction.Some?)
  {
    if lit.fraction.Some? {
      CutAt(lit.whole, '.', lit.fraction.value);
    } else {
      CutNowhere(lit.whole, '.');
    }
  }

  /** The sign in front of an exponent's digits, if any. */
  function SignOf(tail: string): (sign: string)
    ensures |sign| <= |tail| && tail == sign + tail[|sign|..]
  {
    if tail != "" && (tail[0] == '+' || tail[0] == '-') then [tail[0]] else ""
  }

  lemma TailParts(part: Exponent)
    requires part.WellFormed()
    ensures SignOf(part.sign + part.digits) == part.sign
    ensures (part.sign + part.digits)[|part.sign|..] == part.digits
  {
  }

  /** A text has at most one number. */
  lemma LiteralNumberUnique(a: Literal, b: Literal)
    requires a.WellFormed() && b.WellFormed() && a.Text() == b.Text()
    ensures a.Digits() == b.Digits() && a.Power() == b.Power()
  {
    LiteralParts(a);
    LiteralParts(b);
    if a.exponent.Some? {
      TailParts(a.exponent.value);
      TailParts(b.exponent.value);
    }
  }

  lemma WithMarker(lit: Literal, marker: char) returns (same: Literal)
    requires lit.WellFormed() && lit.exponent.Some? && marker in {'e', 'E'}
    ensures same == lit.(exponent := Some(lit.exponent.value.(marker := marker)))
    ensures same.WellFormed() && same.Text() == lit.Mantissa() + [marker] + lit.Tail()
  {
    same := lit.(exponent := Some(lit.exponent.value.(marker := marker)));
    assert same.Mantissa() == lit.Mantissa() && same.Tail() == lit.Tail();
    assert lit.Mantissa() + [marker] + lit.Tail() == lit.Mantissa() + ([marker] + lit.Tail());
  }

  /** Conversely, a literal whose parts are those cut from a text has that text, once its marker is that of the text. */
  lemma PartsDetermineText(text: string, lit: Literal) returns (same: Literal)
    requires lit.WellFormed() && Cut(ToLower(text), 'e') == (lit.Mantissa(), lit.Tail(), lit.exponent.Some?)
    ensures same.WellFormed() && same.Text() == text
    ensures same == lit
         || (lit.exponent.Some? && same.exponent.Some?
             && same == lit.(exponent := Some(lit.exponent.value.(marker := same.exponent.value.marker))))
  {
    same := lit;
    var mantissa, tail := lit.Mantissa(), lit.Tail();
    PartsHaveNoLetters(lit);
    if lit.exponent.Some? {
      LowerInverse(text, mantissa, tail);
      same := WithMarker(lit, text[|mantissa|]);
    } else {
      LowerInverseWhole(text, mantissa);
      assert mantissa + "" == mantissa;
    }
  }
}
