/** Decimal text of unsigned numbers: Go's strconv.ParseUint(s, 10, 64) and fmt.Sprint. */
module Numbers {
  import opened Words
  import opened Options

  predicate IsDigit(c: char) {
    '0' <= c <= '9'
  }

  predicate AllDigits(s: string) {
    forall i :: 0 <= i < |s| ==> IsDigit(s[i])
  }

  function Value(s: string): nat
    requires AllDigits(s)
  {
    if s == "" then 0 else 10 * Value(s[..|s| - 1]) + (s[|s| - 1] as int - '0' as int)
  }

  /** None for empty text, a character that is not a digit, or a value of 2^64 and more. */
  function ParseUint(s: string): Option<Word> {
    if s != "" && AllDigits(s) && Value(s) < WORD_MODULUS then Some(Value(s)) else None
  }

  function Digit(d: nat): char
    requires d < 10
  {
    ('0' as int + d) as char
  }

  function Decimal(n: nat): string {
    if n < 10 then [Digit(n)] else Decimal(n / 10) + [Digit(n % 10)]
  }

  lemma {:induction false} ValueOfDecimal(n: nat)
    ensures AllDigits(Decimal(n)) && Decimal(n) != "" && Value(Decimal(n)) == n
  {
    if n < 10 {
      assert [Digit(n)][..0] == "";
    } else {
      ValueOfDecimal(n / 10);
      var front := Decimal(n / 10);
      assert (front + [Digit(n % 10)])[..|front|] == front;
    }
  }

  /** Decimal text without leading zeros. */
  predicate IsPlain(s: string) {
    s != "" && AllDigits(s) && (s[0] == '0' ==> |s| == 1)
  }

  lemma {:induction false} DecimalOfValue(s: string)
    requires IsPlain(s)
    ensures Decimal(Value(s)) == s && (s[0] != '0' ==> Value(s) > 0)
  {
    var n := |s| - 1;
    if n == 0 {
      assert Value(s[..0]) == 0;
    } else {
      assert s[..n][0] == s[0];
      DecimalOfValue(s[..n]);
      assert s[..n] + [s[n]] == s;
    }
  }

  lemma {:induction false} DecimalIsPlain(n: nat)
    ensures IsPlain(Decimal(n)) && (n > 0 ==> Decimal(n)[0] != '0')
  {
    ValueOfDecimal(n);
    if n >= 10 { DecimalIsPlain(n / 10); }
  }

  /** The printed text is the one without leading zeros that stands for the number. */
  lemma DecimalIff(n: nat, s: string)
    ensures s == Decimal(n) <==> IsPlain(s) && Value(s) == n
  {
    ValueOfDecimal(n);
    DecimalIsPlain(n);
    if IsPlain(s) { DecimalOfValue(s); }
  }

  lemma {:induction false} ZerosBefore(zeros: string, s: string)
    requires IsZeros(zeros) && AllDigits(s)
    ensures AllDigits(zeros + s) && Value(zeros + s) == Value(s)
  {
    if s == "" {
      assert zeros + s == zeros;
      ZerosAreZero(zeros);
    } else {
      var n := |s| - 1;
      assert (zeros + s)[..|zeros| + n] == zeros + s[..n];
      ZerosBefore(zeros, s[..n]);
    }
  }

  lemma {:induction false} LeadingZeros(s: string, from: nat) returns (k: nat)
    requires from < |s| && IsZeros(s[..from]) && AllDigits(s)
    ensures k < |s| && IsZeros(s[..k]) && IsPlain(s[k..])
    decreases |s| - from
  {
    if s[from] == '0' && from + 1 < |s| {
      assert s[..from + 1] == s[..from] + [s[from]];
      k := LeadingZeros(s, from + 1);
    } else {
      k := from;
    }
  }

  /** Text parses exactly if it is some zeros before the printed number. */
  lemma ParsesIff(s: string, n: Word)
    ensures ParseUint(s) == Some(n) <==> exists k :: 0 <= k <= |s| && IsZeros(s[..k]) && s[k..] == Decimal(n)
  {
    if ParseUint(s) == Some(n) {
      var k := LeadingZeros(s, 0);
      assert s[..k] + s[k..] == s;
      ZerosBefore(s[..k], s[k..]);
      DecimalIff(n, s[k..]);
    }
    if k :| 0 <= k <= |s| && IsZeros(s[..k]) && s[k..] == Decimal(n) {
      ZerosCountNothing(s[..k], s[k..], n);
      assert s[..k] + s[k..] == s;
    }
  }

  predicate IsZeros(s: string) {
    forall i :: 0 <= i < |s| ==> s[i] == '0'
  }

  lemma {:induction false} ZerosAreZero(s: string)
    requires IsZeros(s)
    ensures AllDigits(s) && Value(s) == 0
  {
    if s != "" { ZerosAreZero(s[..|s| - 1]); }
  }

  lemma ZerosCountNothing(zeros: string, s: string, n: Word)
    requires IsZeros(zeros) && s == Decimal(n)
    ensures ParseUint(zeros + s) == Some(n)
  {
    ValueOfDecimal(n);
    ZerosBefore(zeros, s);
  }

  /** One more digit is one more decimal place. */
  lemma DecimalGrows(n: nat, d: nat)
    requires d < 10
    ensures Decimal(d) == ["0123456789"[d]]
    ensures n > 0 ==> Decimal(10 * n + d) == Decimal(n) + ["0123456789"[d]]
  {
  }

  /** Printing a 64-bit number and parsing it gives the number back. */
  lemma PrintParse(n: Word)
    ensures ParseUint(Decimal(n)) == Some(n)
  {
    ValueOfDecimal(n);
  }
}
