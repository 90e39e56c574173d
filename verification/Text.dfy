/** Decimal rendering, as `format!` writes integers, and what can be read back from it. */
module Text {

  function Digit(d: int): (c: char)
    requires 0 <= d < 10
    ensures '0' <= c <= '9'
  {
    '0' + (d as char)
  }

  predicate IsDigit(c: char) { '0' <= c <= '9' }

  // `{n}`.
  function Decimal(n: nat): (s: string)
    ensures s != [] && forall i :: 0 <= i < |s| ==> IsDigit(s[i])
    decreases n
  {
    if n < 10 then [Digit(n)] else Decimal(n / 10) + [Digit(n % 10)]
  }

  // `{n:02}` for the identifiers.
  function Pad2(n: nat): string {
    if n < 10 then "0" + Decimal(n) else Decimal(n)
  }

  // The number a run of digits denotes.
  function DigitsValue(s: string): nat
    requires forall i :: 0 <= i < |s| ==> IsDigit(s[i])
  {
    if s == [] then 0
    else
      var last := s[|s| - 1];
      assert IsDigit(last);
      DigitsValue(s[..|s| - 1]) * 10 + (last - '0') as int
  }

  lemma {:induction false} DecimalReadsBack(n: nat)
    ensures DigitsValue(Decimal(n)) == n
    decreases n
  {
    if n >= 10 {
      DecimalReadsBack(n / 10);
      assert Decimal(n)[..|Decimal(n)| - 1] == Decimal(n / 10);
    }
  }

  lemma DecimalIsInjective(a: nat, b: nat)
    requires Decimal(a) == Decimal(b)
    ensures a == b
  {
    DecimalReadsBack(a);
    DecimalReadsBack(b);
  }

  // How many digits a text opens with.
  function LeadingDigits(s: string): (n: nat)
    ensures n <= |s| && forall i :: 0 <= i < n ==> IsDigit(s[i])
    ensures n < |s| ==> !IsDigit(s[n])
  {
    if s == [] || !IsDigit(s[0]) then 0
    else
      var rest := LeadingDigits(s[1..]);
      assert forall i :: 1 <= i < rest + 1 ==> s[i] == s[1..][i - 1];
      rest + 1
  }

  // The numbers in a text, in order.
  function Numbers(s: string): seq<nat>
    decreases |s|
  {
    var n := LeadingDigits(s);
    if s == [] then []
    else if n == 0 then Numbers(s[1..])
    else [DigitsValue(s[..n])] + Numbers(s[n..])
  }

  predicate AllDigits(s: string) { forall i :: 0 <= i < |s| ==> IsDigit(s[i]) }

  lemma NumberFirst(digits: string, rest: string)
    requires digits != [] && AllDigits(digits) && (rest == [] || !IsDigit(rest[0]))
    ensures Numbers(digits + rest) == [DigitsValue(digits)] + Numbers(rest)
  {
    var s := digits + rest;
    assert forall i :: 0 <= i < |digits| ==> s[i] == digits[i];
    assert rest != [] ==> s[|digits|] == rest[0];
    assert LeadingDigits(s) == |digits|;
    assert s[..|digits|] == digits && s[|digits|..] == rest;
  }

  lemma {:induction false} WordsFirst(words: string, rest: string)
    requires forall i :: 0 <= i < |words| ==> !IsDigit(words[i])
    ensures Numbers(words + rest) == Numbers(rest)
  {
    if words == [] {
      assert words + rest == rest;
    } else {
      WordsFirst(words[1..], rest);
      assert (words + rest)[1..] == words[1..] + rest;
    }
  }

  lemma DecimalFirst(n: nat, rest: string)
    requires rest == [] || !IsDigit(rest[0])
    ensures Numbers(Decimal(n) + rest) == [n] + Numbers(rest)
  {
    NumberFirst(Decimal(n), rest);
    DecimalReadsBack(n);
  }

  lemma Pad2IsRead(n: nat)
    ensures Numbers(Pad2(n)) == [n] && |Pad2(n)| >= 2
  {
    assert Pad2(n) + [] == Pad2(n);
    if n < 10 {
      assert Pad2(n)[..1] == "0" && Pad2(n)[1] == Digit(n);
      assert DigitsValue(Pad2(n)[..1]) == DigitsValue(Pad2(n)[..1][..0]) * 10 + 0;
      NumberFirst(Pad2(n), []);
    } else {
      DecimalFirst(n, []);
      assert |Decimal(n / 10)| >= 1;
    }
  }

  predicate NoDigits(s: string) { forall i :: 0 <= i < |s| ==> !IsDigit(s[i]) }

  // Words, a number, and what does not go on with a digit.
  lemma PhraseIsRead(words: string, n: nat, rest: string)
    requires NoDigits(words) && (rest == [] || !IsDigit(rest[0]))
    ensures Numbers(words + (Decimal(n) + rest)) == [n] + Numbers(rest)
  {
    WordsFirst(words, Decimal(n) + rest);
    DecimalFirst(n, rest);
  }
}
