/** Clock arithmetic shared by the duration formatters: hours, minutes and
    seconds of a number of seconds, integer division as Rust and JavaScript
    do it, and the reading of an "H:MM:SS" text back into seconds. */
module Clock {
  import opened Strings

  /** Integer division truncating toward zero (Rust `/` on `i32`). */
  function TruncDiv(a: int, b: int): (q: int)
    requires b > 0
    ensures a >= 0 ==> q == a / b
    ensures a < 0 ==> q == -((-a) / b)
  {
    if a >= 0 then a / b else -((-a) / b)
  }

  /** The remainder that goes with `TruncDiv`: it takes the sign of `a`. */
  function TruncRem(a: int, b: int): (r: int)
    requires b > 0
    ensures a == TruncDiv(a, b) * b + r
    ensures a >= 0 ==> 0 <= r < b
    ensures a < 0 ==> -b < r <= 0
  {
    a - TruncDiv(a, b) * b
  }

  function Hours(d: int): int {
    TruncDiv(d, 3600)
  }

  function Minutes(d: int): int {
    TruncRem(TruncDiv(d, 60), 60)
  }

  function Seconds(d: int): int {
    TruncRem(d, 60)
  }

  /** For a non-negative duration the three parts are its hours, the minutes
      past the hour and the seconds past the minute. */
  lemma PartsRecompose(d: int)
    requires d >= 0
    ensures Hours(d) * 3600 + Minutes(d) * 60 + Seconds(d) == d
    ensures Hours(d) >= 0 && 0 <= Minutes(d) < 60 && 0 <= Seconds(d) < 60
  {
  }

  /** The seconds a clock text's fields stand for, read most significant
      first in base 60. */
  function ClockValue(fields: seq<string>): nat
    requires forall i :: 0 <= i < |fields| ==> AllDigits(fields[i])
  {
    if |fields| == 0 then 0
    else ClockValue(fields[..|fields| - 1]) * 60 + Value(fields[|fields| - 1])
  }

  /** Splitting joined fields on a separator none of them contains gives
      the fields back. */
  lemma {:induction false} SplitJoin(fields: seq<string>, c: char)
    requires |fields| >= 1
    requires forall i :: 0 <= i < |fields| ==> c !in fields[i]
    ensures Split(Join(fields, [c]), c) == fields
    decreases |fields|
  {
    if |fields| == 1 {
      SplitNoSeparator(fields[0], c);
    } else {
      SplitJoin(fields[1..], c);
      SplitAtFirst(fields[0], c, Join(fields[1..], [c]));
      assert [fields[0]] + fields[1..] == fields;
    }
  }

  /** A digit string holds no ':'. */
  lemma DigitsHaveNoColon(s: string)
    requires AllDigits(s)
    ensures ':' !in s
  {
  }

  /** Two-digit zero padding of a number below 100, as Rust `{:02}` and
      JavaScript `padStart(2, '0')` write it. */
  function Pad2(n: nat): string {
    PadStart(Decimal(n), 2, '0')
  }

  /** A padded field is a digit string of the same value, two digits long
      below 100. */
  lemma Pad2Digits(n: nat)
    ensures AllDigits(Pad2(n)) && Value(Pad2(n)) == n && |Pad2(n)| >= 2
    ensures n < 100 ==> |Pad2(n)| == 2
    ensures ':' !in Pad2(n)
  {
    ValueOfZeroPadded(Decimal(n), 2);
    DecimalOfTwoDigits(n);
    DigitsHaveNoColon(Pad2(n));
  }

  lemma DecimalOfTwoDigits(n: nat)
    ensures n < 100 ==> |Decimal(n)| <= 2
  {
    if 10 <= n < 100 {
      assert |Decimal(n / 10)| == 1;
    }
  }

  /** A single digit gets one leading zero. */
  lemma Pad2OfDigit(n: nat)
    requires n < 10
    ensures Pad2(n) == ['0', DigitChar(n)]
  {
    assert Repeat('0', 1) == ['0'];
  }

  /** Reading back two fields: minutes and seconds. */
  lemma ClockOfTwo(a: string, b: string)
    requires AllDigits(a) && AllDigits(b)
    ensures ClockValue([a, b]) == Value(a) * 60 + Value(b)
  {
    assert [a][..0] == [];
    assert ClockValue([a]) == Value(a);
    assert [a, b][..1] == [a];
  }

  /** Reading back three fields: hours, minutes and seconds. */
  lemma ClockOfThree(a: string, b: string, c: string)
    requires AllDigits(a) && AllDigits(b) && AllDigits(c)
    ensures ClockValue([a, b, c]) == Value(a) * 3600 + Value(b) * 60 + Value(c)
  {
    assert [a, b, c][..2] == [a, b];
    ClockOfTwo(a, b);
  }
}
