/** Small datatypes and facts about strings shared by every module. */
module Basics {

  datatype Option<+T> = None | Some(value: T)

  /** The smaller of two integers. */
  function Min(a: int, b: int): int {
    if a <= b then a else b
  }

  /** The larger of two integers. */
  function Max(a: int, b: int): int {
    if a >= b then a else b
  }

  function DigitChar(d: nat): (c: char)
    requires d < 10
    ensures '0' <= c <= '9' && DigitOf(c) == d
  {
    '0' + d as char
  }

  function DigitOf(c: char): int {
    c as int - '0' as int
  }

  /** The decimal digits of `n`, most significant first, as the `%d` verb of Go and C prints them. */
  function Digits(n: nat): (s: string)
    ensures s != ""
    ensures forall c | c in s :: '0' <= c <= '9'
  {
    if n < 10 then [DigitChar(n)] else Digits(n / 10) + [DigitChar(n % 10)]
  }

  /** `%d` applied to a possibly negative number. */
  function FormatInt(n: int): string {
    if n < 0 then "-" + Digits(-n) else Digits(n)
  }

  /** The number that a string of digits denotes. */
  function Value(s: string): int {
    if s == "" then 0 else 10 * Value(s[..|s| - 1]) + DigitOf(s[|s| - 1])
  }

  /** Reading printed digits back gives the number that was printed. */
  lemma {:induction false} ValueOfDigits(n: nat)
    ensures Value(Digits(n)) == n
  {
    var s := Digits(n);
    if n < 10 {
      assert s[..|s| - 1] == "";
    } else {
      ValueOfDigits(n / 10);
      assert s[..|s| - 1] == Digits(n / 10);
    }
  }

  /** Prepending the same text on both sides changes neither equality nor the prefix order. */
  lemma PrefixUnderCommonHead(h: string, a: string, b: string)
    ensures h + a == h + b <==> a == b
    ensures h + a <= h + b <==> a <= b
  {
    assert (h + a)[|h|..] == a && (h + b)[|h|..] == b;
    if h + a <= h + b {
      assert b[..|a|] == (h + b)[|h|..|h| + |a|] == (h + a)[|h|..];
    }
    if a <= b {
      assert (h + b)[..|h| + |a|] == h + b[..|a|];
    }
  }
}
