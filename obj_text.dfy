/**
 * The text pieces of a Wavefront OBJ line: integers in decimal, as C#'s
 * `int.ToString()` writes them, and lines split into space-separated fields.
 * Parsing is the inverse the exported text is proved against.
 */
module ObjText {
  import opened Common

  predicate IsDigit(c: char) {
    '0' <= c <= '9'
  }

  predicate AllDigits(s: string) {
    forall i | 0 <= i < |s| :: IsDigit(s[i])
  }

  function DigitChar(d: nat): char
    requires d < 10
  {
    (48 + d) as char
  }

  /** Decimal digits of a natural number, without leading zeros. */
  function NatText(n: nat): string
    decreases n
  {
    if n < 10 then [DigitChar(n)] else NatText(n / 10) + [DigitChar(n % 10)]
  }

  /** An integer as C# formats it: a minus sign for negative values, then the digits. */
  function IntText(n: int): string {
    if n < 0 then "-" + NatText(-n) else NatText(n)
  }

  /** The value of a string of decimal digits. */
  function DigitsValue(s: string): nat
    requires AllDigits(s)
    decreases |s|
  {
    if s == [] then 0 else DigitsValue(s[..|s| - 1]) * 10 + (s[|s| - 1] as int - 48)
  }

  function ParseInt(s: string): Option<int> {
    if |s| > 1 && s[0] == '-' && AllDigits(s[1..]) then var v: int := DigitsValue(s[1..]); Some(-v)
    else if |s| > 0 && AllDigits(s) then Some(DigitsValue(s))
    else None
  }

  lemma {:induction false} NatTextRoundTrip(n: nat)
    ensures |NatText(n)| > 0 && AllDigits(NatText(n)) && DigitsValue(NatText(n)) == n
    decreases n
  {
    if n >= 10 {
      NatTextRoundTrip(n / 10);
      var s := NatText(n);
      assert s[..|s| - 1] == NatText(n / 10);
    }
  }

  /** Reading back the text of an integer gives the integer. */
  lemma IntTextRoundTrip(n: int)
    ensures ParseInt(IntText(n)) == Some(n)
    ensures ' ' !in IntText(n) && |IntText(n)| > 0
  {
    if n < 0 {
      NatTextRoundTrip(-n);
      assert IntText(n)[1..] == NatText(-n);
    } else {
      NatTextRoundTrip(n);
    }
  }

  /** `s` split at every space (as `string.Split(' ')` does): there is always at least one field. */
  function Words(s: string): (ws: seq<string>)
    ensures |ws| > 0
    decreases |s|
  {
    if s == [] then [""]
    else if s[0] == ' ' then [""] + Words(s[1..])
    else var rest := Words(s[1..]); [[s[0]] + rest[0]] + rest[1..]
  }

  lemma {:induction false} WordsNoSpace(a: string)
    requires ' ' !in a
    ensures Words(a) == [a]
    decreases |a|
  {
    if a != [] {
      WordsNoSpace(a[1..]);
      assert [a[0]] + a[1..] == a;
    }
  }

  /** A space after a field without spaces starts the next field. */
  lemma {:induction false} WordsCons(a: string, b: string)
    requires ' ' !in a
    ensures Words(a + " " + b) == [a] + Words(b)
    decreases |a|
  {
    if a == [] {
      assert a + " " + b == [' '] + b;
      assert (a + " " + b)[1..] == b;
    } else {
      assert (a + " " + b)[1..] == a[1..] + " " + b;
      WordsCons(a[1..], b);
      assert [a[0]] + a[1..] == a;
    }
  }

  /** Four fields joined by single spaces: one OBJ statement. */
  function Fields4(a: string, b: string, c: string, d: string): string {
    a + " " + b + " " + c + " " + d
  }

  /** Four fields without spaces, joined, split back into those four fields. */
  lemma WordsOfFour(a: string, b: string, c: string, d: string)
    requires ' ' !in a && ' ' !in b && ' ' !in c && ' ' !in d
    ensures Words(Fields4(a, b, c, d)) == [a, b, c, d]
  {
    var cd := c + " " + d;
    var bcd := b + " " + cd;
    var abcd := a + " " + bcd;
    WordsNoSpace(d);
    WordsCons(c, d);
    WordsCons(b, cd);
    WordsCons(a, bcd);
    assert abcd == Fields4(a, b, c, d);
  }

  /** An OBJ statement starts with its keyword and a space. */
  lemma Fields4Prefix(a: string, b: string, c: string, d: string)
    ensures |Fields4(a, b, c, d)| > |a| && Fields4(a, b, c, d)[..|a| + 1] == a + " "
  {
    assert Fields4(a, b, c, d) == (a + " ") + (b + " " + c + " " + d);
  }
}
