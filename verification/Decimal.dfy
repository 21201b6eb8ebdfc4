/** Reading an unsigned 64-bit decimal the way Rust's `u64::from_str` does: an optional `+`, at least one
    digit, nothing else, and no overflow. */
module Decimal {
  import opened Wrappers

  const U64_MAX: nat := 0xFFFF_FFFF_FFFF_FFFF

  predicate IsDigit(c: char) {
    '0' <= c <= '9'
  }

  predicate AllDigits(s: string) {
    forall i :: 0 <= i < |s| ==> IsDigit(s[i])
  }

  function Digit(c: char): nat
    requires IsDigit(c)
  {
    (c - '0') as nat
  }

  /** The number a string of digits denotes. */
  function Value(s: string): nat
    requires AllDigits(s)
  {
    if s == [] then 0 else 10 * Value(s[..|s| - 1]) + Digit(s[|s| - 1])
  }

  function WithoutPlus(s: string): string {
    if s != [] && s[0] == '+' then s[1..] else s
  }

  /** What reading should give. */
  function Parsed(s: string): Option<nat> {
    ParsedDigits(WithoutPlus(s))
  }

  function ParsedDigits(digits: string): Option<nat> {
    if digits != [] && AllDigits(digits) && Value(digits) <= U64_MAX then Some(Value(digits)) else None
  }

  lemma {:induction false} ValueGrows(s: string, k: nat)
    requires AllDigits(s) && k <= |s|
    ensures Value(s[..k]) <= Value(s)
    decreases |s| - k
  {
    if k < |s| {
      assert s[..k + 1][..k] == s[..k];
      ValueGrows(s, k + 1);
    } else {
      assert s[..k] == s;
    }
  }

  lemma Overflows(s: string, k: nat)
    requires k <= |s| && AllDigits(s[..k]) && Value(s[..k]) > U64_MAX
    ensures AllDigits(s) ==> Value(s) > U64_MAX
  {
    if AllDigits(s) {
      ValueGrows(s, k);
    }
  }

  /** The reading loop: multiply and add with an overflow check at every digit. */
  method ParseU64(s: string) returns (r: Option<nat>)
    ensures r == Parsed(s)
  {
    var digits := s;
    if |s| > 0 && s[0] == '+' {
      digits := s[1..];
    }
    if digits == [] {
      return None;
    }
    var total := 0;
    for i := 0 to |digits|
      invariant AllDigits(digits[..i])
      invariant total == Value(digits[..i]) <= U64_MAX
    {
      if !IsDigit(digits[i]) {
        return None;
      }
      OneMoreDigit(digits, i);
      total := 10 * total + Digit(digits[i]);
      if total > U64_MAX {
        Overflows(digits, i + 1);
        return None;
      }
    }
    assert digits[..|digits|] == digits;
    return Some(total);
  }

  lemma OneMoreDigit(s: string, i: nat)
    requires i < |s| && AllDigits(s[..i]) && IsDigit(s[i])
    ensures AllDigits(s[..i + 1]) && Value(s[..i + 1]) == 10 * Value(s[..i]) + Digit(s[i])
  {
    assert s[..i + 1][..i] == s[..i];
  }

  lemma {:induction false} ZerosCountNothing(zeros: string, s: string)
    requires (forall i :: 0 <= i < |zeros| ==> zeros[i] == '0') && AllDigits(s)
    ensures AllDigits(zeros + s) && Value(zeros + s) == Value(s)
    decreases |zeros| + |s|
  {
    var all := zeros + s;
    if s != [] {
      assert all[..|all| - 1] == zeros + s[..|s| - 1];
      ZerosCountNothing(zeros, s[..|s| - 1]);
    } else if zeros != [] {
      assert all[..|all| - 1] == zeros[..|zeros| - 1] + [];
      ZerosCountNothing(zeros[..|zeros| - 1], []);
    }
  }

  function Print(n: nat): (s: string)
    ensures s != [] && AllDigits(s)
  {
    var last := ['0' + (n % 10) as char];
    if n < 10 then last else Print(n / 10) + last
  }

  /** Every number is read back, unless it does not fit in 64 bits. */
  lemma {:induction false} PrintParses(n: nat)
    ensures Value(Print(n)) == n
    ensures Parsed(Print(n)) == if n <= U64_MAX then Some(n) else None
  {
    var s := Print(n);
    assert Digit('0' + (n % 10) as char) == n % 10;
    if n < 10 {
      assert s[..|s| - 1] == [];
    } else {
      assert s[..|s| - 1] == Print(n / 10);
      PrintParses(n / 10);
    }
  }

  /** Every non-empty string of digits is the decimal form of its value behind some zeros. */
  lemma {:induction false} Canonical(digits: string) returns (zeros: string)
    requires digits != [] && AllDigits(digits)
    ensures IsZeros(zeros) && digits == zeros + Print(Value(digits))
  {
    var init, last := digits[..|digits| - 1], digits[|digits| - 1];
    var n := Value(digits);
    assert n / 10 == Value(init) && n % 10 == Digit(last) && '0' + (n % 10) as char == last;
    if init == [] {
      zeros := [];
    } else {
      var before := Canonical(init);
      zeros := if Value(init) == 0 then init else before;
      if Value(init) == 0 {
        assert init == before + "0";
      } else {
        assert Print(n) == Print(Value(init)) + [last];
      }
    }
  }

  predicate IsPlus(s: string) {
    s == "" || s == "+"
  }

  predicate IsZeros(s: string) {
    forall i :: 0 <= i < |s| ==> s[i] == '0'
  }

  /** The decimal form of `n`, with zeros and a plus in front. */
  predicate IsWritten(s: string, n: nat, plus: string, zeros: string) {
    IsPlus(plus) && IsZeros(zeros) && s == plus + zeros + Print(n)
  }

  lemma WrittenIsParsed(s: string, n: nat, plus: string, zeros: string)
    requires IsWritten(s, n, plus, zeros)
    ensures Parsed(s) == if n <= U64_MAX then Some(n) else None
  {
    ZerosCountNothing(zeros, Print(n));
    PrintParses(n);
    var digits := zeros + Print(n);
    assert IsDigit(digits[0]) && s == plus + digits;
    assert WithoutPlus(s) == digits;
  }

  lemma Associative(a: string, b: string, c: string)
    ensures a + (b + c) == a + b + c
  {
  }

  lemma ParsedIsWritten(s: string) returns (plus: string, zeros: string)
    requires Parsed(s).Some?
    ensures IsWritten(s, Parsed(s).value, plus, zeros) && Parsed(s).value <= U64_MAX
  {
    var digits := WithoutPlus(s);
    zeros := Canonical(digits);
    if s[0] == '+' {
      plus := "+";
      Associative(plus, zeros, Print(Value(digits)));
      assert s == plus + digits;
    } else {
      plus := "";
      assert plus + zeros == zeros;
    }
  }

  /** A number is read exactly from its decimal form, with any number of zeros and at most one plus in front, and
      exactly if it fits in 64 bits. */
  lemma ParsedExactly(s: string, n: nat)
    ensures Parsed(s) == Some(n) <==>
            n < 0x1_0000_0000_0000_0000 && exists plus: string, zeros: string :: IsWritten(s, n, plus, zeros)
  {
    if plus: string, zeros: string :| IsWritten(s, n, plus, zeros) {
      WrittenIsParsed(s, n, plus, zeros);
    }
    if Parsed(s).Some? {
      var plus, zeros := ParsedIsWritten(s);
    }
  }
}
