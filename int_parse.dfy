/** Rust's `u64::from_str` (base 10), which the action applies to the PR
    number segment of the ref. */
module IntParse {
  import opened Wrappers

  const U64_MAX: nat := 0xFFFF_FFFF_FFFF_FFFF

  type U64 = x: nat | x <= U64_MAX

  /** The reasons `from_str` gives for refusing a text. */
  datatype IntErrorKind = Empty | InvalidDigit | PosOverflow

  predicate IsDigit(c: char) { '0' <= c <= '9' }

  function DigitValue(c: char): nat
    requires IsDigit(c)
  {
    c as nat - '0' as nat
  }

  /** The value of the digit string `d` read after `acc` (left to right). */
  function ValueFrom(acc: nat, d: string): nat
    requires forall k :: 0 <= k < |d| ==> IsDigit(d[k])
    decreases |d|
  {
    if d == [] then acc else ValueFrom(acc * 10 + DigitValue(d[0]), d[1..])
  }

  /** The value of an all-digit string, leading zeros allowed. */
  function Value(d: string): nat
    requires forall k :: 0 <= k < |d| ==> IsDigit(d[k])
  {
    ValueFrom(0, d)
  }

  /** The part of the text that holds the digits: one leading `+` is
      skipped, a leading `-` is not (an unsigned type has no sign). */
  function DigitPart(s: string): string
  {
    if |s| > 0 && s[0] == '+' then s[1..] else s
  }

  /** `u64::from_str(s)`: an empty text is `Empty`; a lone sign is
      `InvalidDigit`; otherwise the digits are read left to right, and the
      first character that is not a digit gives `InvalidDigit`, the first
      digit that takes the value past 2^64 - 1 gives `PosOverflow`. */
  function ParseU64(s: string): Result<U64, IntErrorKind>
  {
    if s == [] then Err(Empty)
    else if |s| == 1 && (s[0] == '+' || s[0] == '-') then Err(InvalidDigit)
    else Accumulate(0, DigitPart(s))
  }

  /** The digit loop of `from_str`, continuing from the value `acc`. */
  function Accumulate(acc: U64, d: string): Result<U64, IntErrorKind>
    decreases |d|
  {
    if d == [] then Ok(acc)
    else if !IsDigit(d[0]) then Err(InvalidDigit)
    else if acc * 10 + DigitValue(d[0]) > U64_MAX then Err(PosOverflow)
    else Accumulate(acc * 10 + DigitValue(d[0]), d[1..])
  }

  /** Reading never decreases the value. */
  lemma {:induction false} ValueFromAtLeast(acc: nat, d: string)
    requires forall k :: 0 <= k < |d| ==> IsDigit(d[k])
    ensures ValueFrom(acc, d) >= acc
    decreases |d|
  {
    if d != [] {
      ValueFromAtLeast(acc * 10 + DigitValue(d[0]), d[1..]);
    }
  }

  /** The digit loop succeeds exactly on all-digit text whose value fits,
      and then yields that value; otherwise it fails. */
  lemma {:induction false} AccumulateMeaning(acc: U64, d: string)
    ensures Accumulate(acc, d).Ok? <==>
      (forall k :: 0 <= k < |d| ==> IsDigit(d[k])) && ValueFrom(acc, d) <= U64_MAX
    ensures Accumulate(acc, d).Ok? ==> Accumulate(acc, d).value == ValueFrom(acc, d)
    ensures Accumulate(acc, d) != Err(Empty)
    decreases |d|
  {
    if d != [] {
      if !IsDigit(d[0]) {
      } else {
        var next := acc * 10 + DigitValue(d[0]);
        if next <= U64_MAX {
          AccumulateMeaning(next, d[1..]);
          assert forall k :: 0 <= k < |d[1..]| ==> d[1..][k] == d[k + 1];
          assert (forall k :: 0 <= k < |d| ==> IsDigit(d[k])) <==>
            (forall k :: 0 <= k < |d[1..]| ==> IsDigit(d[1..][k]));
        } else if forall k :: 0 <= k < |d| ==> IsDigit(d[k]) {
          assert forall k :: 0 <= k < |d[1..]| ==> IsDigit(d[1..][k]) by {
            forall k | 0 <= k < |d[1..]| ensures IsDigit(d[1..][k]) {
              assert d[1..][k] == d[k + 1];
            }
          }
          ValueFromAtLeast(next, d[1..]);
        }
      }
    }
  }

  /** `from_str` accepts the text exactly when, after at most one leading
      `+`, it is a non-empty run of ASCII digits whose value is at most
      2^64 - 1; the result is that value. Anything else is an error. */
  lemma ParseU64Meaning(s: string)
    ensures ParseU64(s).Ok? <==>
      |DigitPart(s)| > 0
      && (forall k :: 0 <= k < |DigitPart(s)| ==> IsDigit(DigitPart(s)[k]))
      && Value(DigitPart(s)) <= U64_MAX
    ensures ParseU64(s).Ok? ==> ParseU64(s).value == Value(DigitPart(s))
    ensures ParseU64(s) == Err(Empty) <==> s == []
  {
    AccumulateMeaning(0, DigitPart(s));
    if |s| == 1 && s[0] == '-' {
      assert !IsDigit(DigitPart(s)[0]);
    }
  }

  /** The decimal text of `n`, without leading zeros. */
  function Decimal(n: nat): (d: string)
    ensures |d| > 0 && forall k :: 0 <= k < |d| ==> IsDigit(d[k])
  {
    if n < 10 then [('0' as nat + n) as char]
    else Decimal(n / 10) + [('0' as nat + n % 10) as char]
  }

  /** Reading one more digit on the right multiplies by ten and adds it. */
  lemma {:induction false} ValueFromSnoc(acc: nat, d: string, c: char)
    requires forall k :: 0 <= k < |d| ==> IsDigit(d[k])
    requires IsDigit(c)
    ensures forall k :: 0 <= k < |d + [c]| ==> IsDigit((d + [c])[k])
    ensures ValueFrom(acc, d + [c]) == ValueFrom(acc, d) * 10 + DigitValue(c)
    decreases |d|
  {
    if d != [] {
      assert (d + [c])[1..] == d[1..] + [c];
      ValueFromSnoc(acc * 10 + DigitValue(d[0]), d[1..], c);
    } else {
      assert (d + [c])[1..] == [];
    }
  }

  /** Reading the decimal text of `n` gives `n` back. */
  lemma {:induction false} ValueDecimal(n: nat)
    ensures Value(Decimal(n)) == n
  {
    if n >= 10 {
      var c := ('0' as nat + n % 10) as char;
      ValueDecimal(n / 10);
      ValueFromSnoc(0, Decimal(n / 10), c);
      assert Decimal(n) == Decimal(n / 10) + [c];
      assert DigitValue(c) == n % 10;
    } else {
      var d := Decimal(n);
      assert DigitValue(d[0]) == n;
      assert ValueFrom(0, d) == ValueFrom(n, d[1..]);
    }
  }

  /** Round trip: every `u64` printed in decimal, with or without a leading
      `+`, parses back to itself. */
  lemma ParseDecimal(n: U64)
    ensures ParseU64(Decimal(n)) == Ok(n)
    ensures ParseU64("+" + Decimal(n)) == Ok(n)
  {
    ValueDecimal(n);
    ParseU64Meaning(Decimal(n));
    ParseU64Meaning("+" + Decimal(n));
    assert DigitPart("+" + Decimal(n)) == Decimal(n);
  }

  /** An all-digit text whose value does not fit is refused as an
      overflow, never as an invalid digit. */
  lemma {:induction false} AccumulateOverflow(acc: U64, d: string)
    requires forall k :: 0 <= k < |d| ==> IsDigit(d[k])
    requires ValueFrom(acc, d) > U64_MAX
    ensures Accumulate(acc, d) == Err(PosOverflow)
    decreases |d|
  {
    var next := acc * 10 + DigitValue(d[0]);
    if next <= U64_MAX {
      assert forall k :: 0 <= k < |d[1..]| ==> IsDigit(d[1..][k]) by {
        forall k | 0 <= k < |d[1..]| ensures IsDigit(d[1..][k]) {
          assert d[1..][k] == d[k + 1];
        }
      }
      AccumulateOverflow(next, d[1..]);
    }
  }

  /** 2^64 is one past the largest `u64`: its text overflows. */
  lemma ParseOverflow()
    ensures ParseU64(Decimal(U64_MAX + 1)) == Err(PosOverflow)
  {
    var d := Decimal(U64_MAX + 1);
    ValueDecimal(U64_MAX + 1);
    assert DigitPart(d) == d;
    AccumulateOverflow(0, d);
  }
}
