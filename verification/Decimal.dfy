/** `strconv.FormatInt` and `strconv.Atoi` in base ten, between which a generation stamp travels. */
module Decimal {
  import opened Options

  const MIN_INT64: int := -0x8000_0000_0000_0000
  const MAX_INT64: int := 0x7FFF_FFFF_FFFF_FFFF

  predicate IsInt64(n: int) {
    MIN_INT64 <= n <= MAX_INT64
  }

  function Digit(d: nat): char
    requires d < 10
  {
    '0' + d as char
  }

  predicate IsDigit(c: char) {
    '0' <= c <= '9'
  }

  function Digits(n: nat): string {
    if n < 10 then [Digit(n)] else Digits(n / 10) + [Digit(n % 10)]
  }

  function FormatInt(n: int): string {
    if n < 0 then "-" + Digits(-n) else Digits(n)
  }

  /** The number a non-empty run of digits stands for. */
  function Value(s: string): Option<nat> {
    if s == "" || !IsDigit(s[|s| - 1]) then None
    else
      var d := s[|s| - 1] as int - '0' as int;
      if |s| == 1 then Some(d)
      else match Value(s[..|s| - 1])
        case None => None
        case Some(v) => Some(10 * v + d)
  }

  function Atoi(s: string): Option<int> {
    var signed := s != "" && (s[0] == '-' || s[0] == '+');
    match Value(if signed then s[1..] else s)
    case None => None
    case Some(v) =>
      var n: int := if signed && s[0] == '-' then -(v as int) else v as int;
      if IsInt64(n) then Some(n) else None
  }

  lemma {:induction false} ValueOfDigits(n: nat)
    ensures Digits(n) != "" && Value(Digits(n)) == Some(n) && IsDigit(Digits(n)[0])
  {
    if n >= 10 {
      ValueOfDigits(n / 10);
      var s := Digits(n);
      assert s[..|s| - 1] == Digits(n / 10);
      assert s[|s| - 1] == Digit(n % 10);
    }
  }

  /** Reading back a printed generation is the identity on int64. */
  lemma AtoiOfFormatInt(n: int)
    requires IsInt64(n)
    ensures Atoi(FormatInt(n)) == Some(n)
    ensures FormatInt(n) != ""
  {
    ValueOfDigits(if n < 0 then -n else n);
    if n < 0 {
      assert ("-" + Digits(-n))[1..] == Digits(-n);
    }
  }
}
