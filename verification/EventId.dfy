/** Event identifiers are 64-bit counters written in decimal. */
module EventId {
  import opened Options

  const LIMIT: nat := 0x1_0000_0000_0000_0000

  function DigitChar(d: nat): char
    requires d < 10
  {
    '0' + d as char
  }

  predicate IsDigit(c: char) {
    '0' <= c <= '9'
  }

  function DigitValue(c: char): (d: nat)
    requires IsDigit(c)
    ensures d < 10 && DigitChar(d) == c
  {
    (c - '0') as nat
  }

  function Format(n: nat): (s: string)
    ensures s != []
    decreases n
  {
    if n < 10 then [DigitChar(n)] else Format(n / 10) + [DigitChar(n % 10)]
  }

  /** The number that a string of decimal digits denotes, whatever its size. */
  function Denotes(s: string): Option<nat> {
    if s == [] then Some(0)
    else
      var last := s[|s| - 1];
      match Denotes(s[..|s| - 1])
      case Some(high) => if IsDigit(last) then Some(high * 10 + DigitValue(last)) else None
      case None => None
  }

  /** Base-10 parsing into 64 bits: no sign, no blank, no empty string, nothing out of range. */
  function Parse(s: string): Option<nat> {
    if s == [] then None
    else match Denotes(s)
      case Some(n) => if n < LIMIT then Some(n) else None
      case None => None
  }

  lemma {:induction false} DenotesFormat(n: nat)
    ensures Denotes(Format(n)) == Some(n)
    decreases n
  {
    var s := Format(n);
    if n < 10 {
      assert s[..|s| - 1] == [];
      assert Denotes([]) == Some(0);
    } else {
      DenotesFormat(n / 10);
      assert s[..|s| - 1] == Format(n / 10);
    }
  }

  /** Every identifier the hub writes is read back as itself. */
  lemma ParseFormat(n: nat)
    requires n < LIMIT
    ensures Parse(Format(n)) == Some(n)
  {
    DenotesFormat(n);
  }

  /** A string without a superfluous leading zero. */
  predicate Canonical(s: string) {
    s != [] && (s[0] == '0' ==> |s| == 1)
  }

  lemma {:induction false} FormatDenotes(s: string)
    requires Canonical(s) && Denotes(s).Some?
    ensures Format(Denotes(s).value) == s
    ensures |s| > 1 ==> 10 <= Denotes(s).value
    decreases |s|
  {
    var front, last := s[..|s| - 1], s[|s| - 1];
    assert s == front + [last];
    if front == [] {
      assert Denotes(front) == Some(0);
    } else {
      FormatDenotes(front);
      var high := Denotes(front).value;
      assert |front| == 1 ==> Denotes(front[..0]) == Some(0);
      assert 0 < high;
      assert (high * 10 + DigitValue(last)) / 10 == high;
    }
  }

  /** Parsing accepts exactly the decimal numerals below 2^64, and on canonical ones it inverts formatting. */
  lemma FormatParse(s: string)
    requires Canonical(s)
    ensures Parse(s).Some? ==> Format(Parse(s).value) == s
    ensures Parse(s).Some? <==> exists n: nat :: n < LIMIT && Format(n) == s
  {
    if Parse(s).Some? {
      FormatDenotes(s);
    }
    forall n: nat | n < LIMIT && Format(n) == s ensures Parse(s).Some? {
      ParseFormat(n);
    }
  }

  const DIGITS := "0123456789"

  /** The notation is decimal: the last digit is the remainder by ten, and the rest the notation of the quotient. */
  lemma FormatIsDecimal(n: nat, d: nat)
    requires d < 10
    ensures Format(d) == [DIGITS[d]]
    ensures 0 < n ==> Format(10 * n + d) == Format(n) + [DIGITS[d]]
  {
    assert (10 * n + d) / 10 == n && (10 * n + d) % 10 == d;
  }

  /** What is parsed consists of decimal digits only; anything else is refused, as is the empty string. */
  lemma {:induction false} ParseTakesDigitsOnly(s: string)
    ensures Denotes(s).Some? <==> forall c :: c in s ==> c in DIGITS
    ensures Parse(s).Some? ==> s != [] && forall c :: c in s ==> c in DIGITS
  {
    if s == [] {
    } else {
      var front, last := s[..|s| - 1], s[|s| - 1];
      ParseTakesDigitsOnly(front);
      assert s == front + [last];
      DigitsAreTen(last);
    }
  }

  lemma DigitsAreTen(c: char)
    ensures IsDigit(c) <==> c in DIGITS
  {
    if IsDigit(c) {
      assert DIGITS[DigitValue(c)] == c;
    }
  }
}
