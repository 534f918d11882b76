/** Go's `strconv.Atoi` for a 64-bit `int`, which DownloadHTTP applies to the
    Content-Length header, and the decimal form such a header carries. */
module StrConv {
  import opened Wrappers

  const MinInt: int := -0x8000_0000_0000_0000
  const MaxInt: int := 0x7FFF_FFFF_FFFF_FFFF

  predicate IsDigit(c: char) {
    '0' <= c <= '9'
  }

  predicate AllDigits(s: string) {
    forall i :: 0 <= i < |s| ==> IsDigit(s[i])
  }

  /** The number written by a string of decimal digits, most significant first. */
  function DigitsValue(s: string): nat
    requires AllDigits(s)
  {
    if s == [] then 0 else DigitsValue(s[..|s| - 1]) * 10 + (s[|s| - 1] as int - '0' as int)
  }

  /** An optional '+' or '-', then one or more decimal digits, naming a value
      that fits a 64-bit int; anything else (the empty string of a missing
      header included) is an error. */
  function Atoi(s: string): (r: Option<int>)
    ensures s == [] || s == "+" || s == "-" ==> r.None?
    ensures r.Some? ==> MinInt <= r.value <= MaxInt
    ensures r.Some? ==> forall i :: 0 <= i < |s| ==> IsDigit(s[i]) || (i == 0 && s[i] in "+-")
    ensures r.Some? && s[0] == '-' ==> r.value <= 0
    ensures r.Some? && s[0] != '-' ==> r.value >= 0
  {
    if s == [] then None
    else
      var digits := if s[0] == '-' || s[0] == '+' then s[1..] else s;
      if digits == [] || !AllDigits(digits) then None
      else
        var m: int := DigitsValue(digits);
        var v := if s[0] == '-' then -m else m;
        if MinInt <= v <= MaxInt then Some(v) else None
  }

  /** The shortest decimal digits of a natural number. */
  function Digits(n: nat): (s: string)
    ensures s != [] && AllDigits(s)
  {
    if n < 10 then ['0' + n as char] else Digits(n / 10) + ['0' + (n % 10) as char]
  }

  /** The decimal form of an integer, with a '-' before a negative one. */
  function Decimal(n: int): string {
    if n < 0 then "-" + Digits(-n) else Digits(n)
  }

  lemma {:induction false} DigitsValueOfDigits(n: nat)
    ensures DigitsValue(Digits(n)) == n
  {
    if n >= 10 {
      DigitsValueOfDigits(n / 10);
      var s := Digits(n);
      assert s[..|s| - 1] == Digits(n / 10);
    }
  }

  /** Parsing the decimal form of an integer gives that integer back when it
      fits a 64-bit int, and an error otherwise. */
  lemma AtoiDecimal(n: int)
    ensures Atoi(Decimal(n)) == if MinInt <= n <= MaxInt then Some(n) else None
  {
    var s := Decimal(n);
    if n < 0 {
      DigitsValueOfDigits(-n);
      assert s[1..] == Digits(-n);
    } else {
      DigitsValueOfDigits(n);
      assert s[0] != '-' && s[0] != '+';
    }
  }

  /** Conversely, an optional sign followed by one or more digits always
      parses: to the signed value of the digits when it fits a 64-bit int,
      and to an error otherwise. */
  lemma AtoiSignedDigits(sign: string, digits: string)
    requires sign == "" || sign == "+" || sign == "-"
    requires digits != [] && AllDigits(digits)
    ensures var m: int := DigitsValue(digits);
      var v := if sign == "-" then -m else m;
      Atoi(sign + digits) == if MinInt <= v <= MaxInt then Some(v) else None
  {
    var s := sign + digits;
    if sign == "" {
      assert s == digits;
      assert IsDigit(s[0]);
    } else {
      assert s[0] == sign[0];
      assert s[1..] == digits;
    }
  }

  /** AtoiSignedDigits for digits whose value is already known. */
  lemma AtoiOfValue(sign: string, digits: string, n: nat)
    requires sign == "" || sign == "+" || sign == "-"
    requires digits != [] && AllDigits(digits) && DigitsValue(digits) == n
    ensures var v: int := if sign == "-" then -(n as int) else n;
      Atoi(sign + digits) == if MinInt <= v <= MaxInt then Some(v) else None
  {
    AtoiSignedDigits(sign, digits);
  }

  function Zeros(k: nat): (z: string)
    ensures |z| == k && AllDigits(z)
  {
    if k == 0 then [] else Zeros(k - 1) + "0"
  }

  /** Leading zeros do not change the value of a digit string. */
  lemma {:induction false} DigitsValueLeadingZeros(k: nat, digits: string)
    requires AllDigits(digits)
    ensures DigitsValue(Zeros(k) + digits) == DigitsValue(digits)
  {
    var s := Zeros(k) + digits;
    if digits == [] {
      assert s == Zeros(k);
      if k > 0 {
        assert s[..|s| - 1] == Zeros(k - 1) + [];
        DigitsValueLeadingZeros(k - 1, []);
      }
    } else {
      var init := digits[..|digits| - 1];
      assert s[..|s| - 1] == Zeros(k) + init;
      DigitsValueLeadingZeros(k, init);
    }
  }

  lemma PaddedDigitsValue(k: nat, n: nat)
    ensures Zeros(k) + Digits(n) != [] && AllDigits(Zeros(k) + Digits(n))
    ensures DigitsValue(Zeros(k) + Digits(n)) == n
  {
    DigitsValueLeadingZeros(k, Digits(n));
    DigitsValueOfDigits(n);
  }

  /** A signed, zero-padded decimal parses to its value: Atoi("+5") is 5,
      Atoi("-007") is -7. */
  lemma AtoiPadded(sign: string, k: nat, n: nat)
    requires sign == "" || sign == "+" || sign == "-"
    ensures var v: int := if sign == "-" then -(n as int) else n;
      Atoi(sign + (Zeros(k) + Digits(n))) == if MinInt <= v <= MaxInt then Some(v) else None
  {
    var digits := Zeros(k) + Digits(n);
    PaddedDigitsValue(k, n);
    AtoiOfValue(sign, digits, n);
  }

  lemma AtoiExamples()
    ensures Atoi("4096") == Some(4096)
  {
    AtoiDecimal(4096);
    assert Decimal(4096) == "4096";
  }

  lemma AtoiNegativeExample()
    ensures Atoi("-5") == Some(-5)
  {
    AtoiDecimal(-5);
    assert Decimal(-5) == "-5";
  }

  lemma AtoiRejectExamples()
    ensures Atoi("12a") == None
    ensures Atoi(" 12") == None
  {
    assert "12a"[2] == 'a';
    assert " 12"[0] == ' ';
  }

  lemma AtoiPaddedExamples()
    ensures Atoi("+5") == Some(5)
    ensures Atoi("007") == Some(7)
  {
    AtoiPadded("+", 0, 5);
    assert "+" + (Zeros(0) + Digits(5)) == "+5";
    AtoiPadded("", 2, 7);
    assert Zeros(2) == "00";
    assert "" + (Zeros(2) + Digits(7)) == "007";
  }
}
