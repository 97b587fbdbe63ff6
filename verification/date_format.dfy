/** The `YYYY-MM-DD` pattern `^\d{4}-\d{2}-\d{2}$` the order-detail request validates its dates with.
    In a JavaScript regular expression `\d` is exactly `[0-9]`, and the pattern checks shape only. */
module DateFormat {

  datatype Token = Digit | Literal(c: char)

  /** `^\d{4}-\d{2}-\d{2}$`: anchored at both ends and free of repetition ranges, so it is one token
      per character. */
  const DatePattern: seq<Token> :=
    [Digit, Digit, Digit, Digit, Literal('-'), Digit, Digit, Literal('-'), Digit, Digit]

  predicate IsDigit(c: char) {
    '0' <= c <= '9'
  }

  predicate Accepts(t: Token, c: char) {
    match t
    case Digit => IsDigit(c)
    case Literal(l) => c == l
  }

  /** The declarative reading of the pattern: ten characters, dashes at 4 and 7, digits elsewhere. */
  predicate IsDateShape(s: string) {
    && |s| == 10
    && s[4] == '-' && s[7] == '-'
    && forall i :: 0 <= i < 10 && i != 4 && i != 7 ==> IsDigit(s[i])
  }

  /** Anchored matching of a repetition-free pattern, one character at a time. */
  method MatchAnchored(pattern: seq<Token>, s: string) returns (ok: bool)
    ensures ok <==> |s| == |pattern| && forall i :: 0 <= i < |s| ==> Accepts(pattern[i], s[i])
  {
    if |s| != |pattern| {
      return false;
    }
    var i := 0;
    while i < |s|
      invariant 0 <= i <= |s|
      invariant forall j :: 0 <= j < i ==> Accepts(pattern[j], s[j])
    {
      if !Accepts(pattern[i], s[i]) {
        return false;
      }
      i := i + 1;
    }
    return true;
  }

  /** The token pattern and the declarative shape say the same thing. */
  lemma DatePatternIsShape(s: string)
    ensures IsDateShape(s) <==> |s| == |DatePattern| && forall i :: 0 <= i < |s| ==> Accepts(DatePattern[i], s[i])
  {
    if |s| == 10 {
      assert forall i :: 0 <= i < 10 ==>
        (Accepts(DatePattern[i], s[i]) <==> if i == 4 || i == 7 then s[i] == '-' else IsDigit(s[i]));
    }
  }

  /** The matcher run on the date pattern recognises exactly the date shape. */
  method MatchesDate(s: string) returns (ok: bool)
    ensures ok <==> IsDateShape(s)
  {
    ok := MatchAnchored(DatePattern, s);
    DatePatternIsShape(s);
  }

  function DigitChar(n: nat): (c: char)
    requires n < 10
    ensures IsDigit(c)
  {
    "0123456789"[n]
  }

  function DigitValue(c: char): (n: nat)
    requires IsDigit(c)
    ensures n < 10 && DigitChar(n) == c
  {
    (c as int - '0' as int) as nat
  }

  function Pow10(w: nat): (p: nat)
    ensures p >= 1
  {
    if w == 0 then 1 else 10 * Pow10(w - 1)
  }

  predicate AllDigits(s: string) {
    forall i :: 0 <= i < |s| ==> IsDigit(s[i])
  }

  /** n written in exactly w decimal digits, zero-padded on the left. */
  function Digits(n: nat, w: nat): (s: string)
    ensures |s| == w && AllDigits(s)
  {
    if w == 0 then [] else Digits(n / 10, w - 1) + [DigitChar(n % 10)]
  }

  /** The value of a string of decimal digits. */
  function ParseDigits(s: string): (n: nat)
    requires AllDigits(s)
    ensures n < Pow10(|s|)
  {
    if |s| == 0 then 0 else ParseDigits(s[..|s| - 1]) * 10 + DigitValue(s[|s| - 1])
  }

  lemma {:induction false} ParseDigitsOfDigits(n: nat, w: nat)
    requires n < Pow10(w)
    ensures ParseDigits(Digits(n, w)) == n
  {
    if w > 0 {
      var s := Digits(n, w);
      assert s[..|s| - 1] == Digits(n / 10, w - 1);
      ParseDigitsOfDigits(n / 10, w - 1);
    }
  }

  lemma {:induction false} DigitsOfParseDigits(s: string)
    requires AllDigits(s)
    ensures Digits(ParseDigits(s), |s|) == s
  {
    if |s| > 0 {
      var init := s[..|s| - 1];
      var n := ParseDigits(s);
      assert n / 10 == ParseDigits(init) && n % 10 == DigitValue(s[|s| - 1]);
      DigitsOfParseDigits(init);
      assert s == init + [s[|s| - 1]];
    }
  }

  /** A year, month and day written the way the pattern expects. */
  function FormatDate(year: nat, month: nat, day: nat): string
    requires year < 10000 && month < 100 && day < 100
  {
    Digits(year, 4) + "-" + Digits(month, 2) + "-" + Digits(day, 2)
  }

  /** The pattern checks shape only: every four-digit year with any two-digit month and day passes,
      month 99 and day 00 included. */
  lemma ShapeAcceptsEveryDigitTriple(year: nat, month: nat, day: nat)
    requires year < 10000 && month < 100 && day < 100
    ensures IsDateShape(FormatDate(year, month, day))
  {
    var s := FormatDate(year, month, day);
    var y, m, d := Digits(year, 4), Digits(month, 2), Digits(day, 2);
    forall i | 0 <= i < 10 && i != 4 && i != 7
      ensures IsDigit(s[i])
    {
      if i < 4 {
        assert s[i] == y[i];
      } else if i < 7 {
        assert s[i] == m[i - 5];
      } else {
        assert s[i] == d[i - 8];
      }
    }
  }

  /** Conversely, every string the pattern accepts is such a formatted triple: the pattern accepts
      exactly the zero-padded digit triples. */
  lemma {:induction false} ShapeIsFormattedTriple(s: string)
    requires IsDateShape(s)
    ensures AllDigits(s[..4]) && AllDigits(s[5..7]) && AllDigits(s[8..])
    ensures s == FormatDate(ParseDigits(s[..4]), ParseDigits(s[5..7]), ParseDigits(s[8..]))
  {
    var y, m, d := s[..4], s[5..7], s[8..];
    assert AllDigits(y) by {
      forall i | 0 <= i < 4 ensures IsDigit(y[i]) { assert y[i] == s[i]; }
    }
    assert AllDigits(m) by {
      forall i | 0 <= i < 2 ensures IsDigit(m[i]) { assert m[i] == s[5 + i]; }
    }
    assert AllDigits(d) by {
      forall i | 0 <= i < 2 ensures IsDigit(d[i]) { assert d[i] == s[8 + i]; }
    }
    DigitsOfParseDigits(y);
    DigitsOfParseDigits(m);
    DigitsOfParseDigits(d);
    SplitAtDashes(s);
  }

  lemma SplitAtDashes(s: string)
    requires |s| == 10 && s[4] == '-' && s[7] == '-'
    ensures s == s[..4] + "-" + s[5..7] + "-" + s[8..]
  {
  }

  lemma ShapeExamples()
    ensures IsDateShape("2024-01-15")
    ensures IsDateShape("2024-99-99")
    ensures !IsDateShape("2024-1-15")
    ensures !IsDateShape("2024/01/15")
    ensures !IsDateShape("2024-01-15T00:00")
  {
    assert "2024/01/15"[4] == '/';
  }
}
