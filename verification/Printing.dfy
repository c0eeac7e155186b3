/** The printed form of a projected value: what buckets are grouped by. */
module Printing {
  import opened Values

  /** The formatting the standard library does and this model does not spell out:
      floats, times, also in JSON, lists, and the truncate-and-format of a date
      histogram (time, interval, layout). */
  datatype Format = Format(
    number: real -> string, time: int -> string, timeJSON: int -> string, list: seq<string> -> string,
    date: (int, string, string) -> string)

  function Digit(d: nat): char
    requires d < 10
  {
    "0123456789"[d]
  }

  function DecimalNat(n: nat): (s: string)
    ensures |s| > 0 && (n >= 10 ==> |s| > 1)
    ensures forall c :: c in s ==> '0' <= c <= '9'
  {
    if n < 10 then [Digit(n)] else DecimalNat(n / 10) + [Digit(n % 10)]
  }

  function Decimal(n: int): string {
    if n < 0 then "-" + DecimalNat(-n) else DecimalNat(n)
  }

  /** The default print of a value, fmt.Sprint. */
  function Sprint(fmt: Format, v: Val): string {
    match v
    case Nil => "<nil>"
    case Str(s) => s
    case Int(n) => Decimal(n)
    case Int64(n) => Decimal(n)
    case Float64(x) => fmt.number(x)
    case Float32(x) => fmt.number(x)
    case Bool(b) => if b then "true" else "false"
    case Time(t) => fmt.time(t)
    case StrList(es) => fmt.list(es)
  }

  /** The number a row of digits stands for. */
  ghost function NatOf(s: string): int {
    if s == [] then 0 else 10 * NatOf(s[..|s| - 1]) + (s[|s| - 1] as int - '0' as int)
  }

  /** The number a text stands for: digits, with a minus in front if it is negative. */
  ghost function IntOf(s: string): int {
    if s != [] && s[0] == '-' then -NatOf(s[1..]) else NatOf(s)
  }

  lemma {:induction false} DecimalNatReads(n: nat)
    ensures NatOf(DecimalNat(n)) == n
    ensures n > 0 ==> DecimalNat(n)[0] != '0'
  {
    var s := DecimalNat(n);
    assert s[|s| - 1] as int - '0' as int == n % 10;
    if n >= 10 {
      assert s[..|s| - 1] == DecimalNat(n / 10);
      DecimalNatReads(n / 10);
      assert s[0] == DecimalNat(n / 10)[0];
    } else {
      assert s[..0] == [];
    }
  }

  /** Digits only, and no superfluous zero in front. */
  ghost predicate PlainDigits(s: string) {
    s != [] && (|s| > 1 ==> s[0] != '0') && forall i :: 0 <= i < |s| ==> '0' <= s[i] <= '9'
  }

  /** The usual way to write n: digits, after a minus if it is negative. */
  ghost predicate PlainInteger(s: string, n: int) {
    IntOf(s) == n && if n < 0 then s != [] && s[0] == '-' && PlainDigits(s[1..]) else PlainDigits(s)
  }

  /** A printed integer is written that way. */
  lemma {:induction false} DecimalReads(n: int)
    ensures PlainInteger(Decimal(n), n)
  {
    DecimalNatReads(if n < 0 then -n else n);
    DigitsOnly(if n < 0 then -n else n);
    if n < 0 {
      assert Decimal(n)[0] == '-' && Decimal(n)[1..] == DecimalNat(-n);
    }
  }

  lemma DigitsOnly(n: nat)
    ensures forall i :: 0 <= i < |DecimalNat(n)| ==> '0' <= DecimalNat(n)[i] <= '9'
  {
    forall i | 0 <= i < |DecimalNat(n)| ensures '0' <= DecimalNat(n)[i] <= '9' {
      assert DecimalNat(n)[i] in DecimalNat(n);
    }
  }

  lemma TensAndOnes(m: nat, d: nat)
    requires m > 0 && d < 10
    ensures DecimalNat(10 * m + d) == DecimalNat(m) + [Digit(d)]
  {
    assert (10 * m + d) / 10 == m && (10 * m + d) % 10 == d;
  }

  lemma {:induction false} OneDigitPrints(c: char)
    requires '0' <= c <= '9'
    ensures NatOf([c]) == c as int - '0' as int && DecimalNat(NatOf([c])) == [c]
  {
    assert [c][..0] == [];
    LastDigit(c);
  }

  lemma {:induction false} OneMoreDigit(init: string, c: char)
    requires NatOf(init) > 0 && DecimalNat(NatOf(init)) == init && '0' <= c <= '9'
    ensures NatOf(init + [c]) > 0 && DecimalNat(NatOf(init + [c])) == init + [c]
  {
    assert (init + [c])[..|init|] == init;
    LastDigit(c);
    TensAndOnes(NatOf(init), c as int - '0' as int);
  }

  lemma {:induction false} PlainDigitsPrint(s: string)
    requires PlainDigits(s)
    ensures NatOf(s) >= 0 && DecimalNat(NatOf(s)) == s
    ensures s[0] != '0' ==> NatOf(s) > 0
  {
    if |s| == 1 {
      OneDigitPrints(s[0]);
      assert s == [s[0]];
    } else {
      var init := s[..|s| - 1];
      assert s == init + [s[|s| - 1]];
      assert init[0] == s[0] && PlainDigits(init);
      PlainDigitsPrint(init);
      OneMoreDigit(init, s[|s| - 1]);
    }
  }

  lemma LastDigit(c: char)
    requires '0' <= c <= '9'
    ensures var d := c as int - '0' as int; 0 <= d < 10 && Digit(d) == c
  {
  }

  /** And there is no other way. */
  lemma {:induction false} PlainIntegerPrints(s: string, n: int)
    ensures PlainInteger(s, n) <==> s == Decimal(n)
  {
    DecimalReads(n);
    if PlainInteger(s, n) {
      if n < 0 {
        PlainDigitsPrint(s[1..]);
        assert s == "-" + s[1..];
      } else {
        PlainDigitsPrint(s);
      }
    }
  }

  /** k is how the value prints; what the library prints of floats, times and lists is open. */
  ghost predicate Prints(fmt: Format, v: Val, k: string) {
    match v
    case Nil => k == "<nil>"
    case Str(s) => k == s
    case Int(n) => PlainInteger(k, n)
    case Int64(n) => PlainInteger(k, n)
    case Float64(x) => k == fmt.number(x)
    case Float32(x) => k == fmt.number(x)
    case Bool(b) => k == (if b then "true" else "false")
    case Time(t) => k == fmt.time(t)
    case StrList(es) => k == fmt.list(es)
  }

  lemma PrintedIs(fmt: Format, v: Val, k: string)
    ensures k == Sprint(fmt, v) <==> Prints(fmt, v, k)
  {
    match v
    case Int(n) => PlainIntegerPrints(k, n);
    case Int64(n) => PlainIntegerPrints(k, n);
    case _ =>
  }

  /** Distinct integers print differently. */
  lemma DecimalInjective(m: int, n: int)
    requires Decimal(m) == Decimal(n)
    ensures m == n
  {
    DecimalReads(m);
    DecimalReads(n);
  }
}
