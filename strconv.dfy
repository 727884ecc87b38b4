/**
 * Decimal text of integers: `strconv.Itoa` (also what `%d` prints) and
 * `strconv.Atoi`, over unbounded integers.
 */
module Strconv {
  import opened Wrappers

  predicate IsDigit(c: char) {
    '0' <= c <= '9'
  }

  predicate AllDigits(s: string) {
    forall k | 0 <= k < |s| :: IsDigit(s[k])
  }

  function DigitChar(d: nat): (c: char)
    requires d < 10
    ensures IsDigit(c)
  {
    (48 + d) as char
  }

  function DigitValue(c: char): (d: nat)
    requires IsDigit(c)
    ensures d < 10 && DigitChar(d) == c
  {
    c as int - 48
  }

  /** `strconv.Itoa` of a non-negative number: its decimal digits, most significant first. */
  function Itoa(n: nat): (s: string)
    ensures |s| > 0 && AllDigits(s)
    ensures n > 0 ==> s[0] != '0'
    decreases n
  {
    if n < 10 then [DigitChar(n)] else Itoa(n / 10) + [DigitChar(n % 10)]
  }

  /** The number a non-empty run of decimal digits denotes. */
  function DigitsValue(s: string): nat
    requires AllDigits(s)
  {
    if s == [] then 0 else DigitsValue(s[..|s| - 1]) * 10 + DigitValue(s[|s| - 1])
  }

  /**
   * `strconv.Atoi`: an optional `+` or `-` followed by one or more decimal
   * digits, and nothing else; `None` stands for the syntax error.
   */
  function Atoi(s: string): (r: Option<int>)
    ensures r.Some? ==> |s| > 0
  {
    if |s| == 0 then None
    else if s[0] == '+' || s[0] == '-' then
      var digits := s[1..];
      if |digits| == 0 || !AllDigits(digits) then None
      else if s[0] == '-' then Some(-(DigitsValue(digits) as int))
      else Some(DigitsValue(digits))
    else if AllDigits(s) then Some(DigitsValue(s))
    else None
  }

  lemma {:induction false} DigitsValueItoa(n: nat)
    ensures DigitsValue(Itoa(n)) == n
    decreases n
  {
    if n >= 10 {
      var s := Itoa(n);
      assert s[..|s| - 1] == Itoa(n / 10);
      DigitsValueItoa(n / 10);
    }
  }

  /** Reading back the decimal text of a number gives the number. */
  lemma AtoiItoa(n: nat)
    ensures Atoi(Itoa(n)) == Some(n)
  {
    DigitsValueItoa(n);
  }

  /** A leading `-` negates and a leading `+` changes nothing. */
  lemma AtoiSigned(n: nat)
    ensures Atoi("-" + Itoa(n)) == Some(-(n as int))
    ensures Atoi("+" + Itoa(n)) == Some(n)
  {
    DigitsValueItoa(n);
    assert ("-" + Itoa(n))[1..] == Itoa(n);
    assert ("+" + Itoa(n))[1..] == Itoa(n);
  }

  /** Exactly an optional sign followed by one or more decimal digits is accepted. */
  lemma AtoiAccepts(s: string)
    ensures Atoi(s).Some? <==>
              |s| > 0 && (if s[0] == '+' || s[0] == '-' then |s| > 1 && AllDigits(s[1..]) else AllDigits(s))
  {
  }

  /** A negative result comes only from text that starts with `-`. */
  lemma AtoiSign(s: string)
    ensures Atoi(s).Some? && Atoi(s).value < 0 ==> s[0] == '-'
  {
  }

  /**
   * Everything else is refused: empty text, a lone sign, a first character
   * that is neither a sign nor a digit (a leading space, say), or a non-digit
   * after the first character.
   */
  lemma AtoiRejects(s: string)
    requires s == "" || s == "+" || s == "-"
             || (|s| > 0 && s[0] != '+' && s[0] != '-' && !IsDigit(s[0]))
             || exists k | 1 <= k < |s| :: !IsDigit(s[k])
    ensures Atoi(s) == None
  {
    if |s| > 1 && exists k | 1 <= k < |s| :: !IsDigit(s[k]) {
      var k :| 1 <= k < |s| && !IsDigit(s[k]);
      assert !IsDigit(s[1..][k - 1]);
    }
  }
}
