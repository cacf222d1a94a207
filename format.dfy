/** The web app's `formatDuration`: "MM:SS", or "HH:MM:SS" once there is a
    whole hour, every field zero-padded to two digits. */
module Format {
  import opened Strings
  import opened Clock

  /** The fields shown: hours, minutes and seconds, with the hours dropped
      when there are none. */
  function Segments(seconds: nat): (r: seq<nat>)
    ensures |r| == if Hours(seconds) == 0 then 2 else 3
    ensures r[|r| - 2] == Minutes(seconds) && r[|r| - 1] == Seconds(seconds)
    ensures |r| == 3 ==> r[0] == Hours(seconds)
  {
    var segments := [Hours(seconds), Minutes(seconds), Seconds(seconds)];
    if segments[0] == 0 then segments[1..] else segments
  }

  /** Each field written with at least two digits. */
  function Fields(segments: seq<nat>): (r: seq<string>)
    ensures |r| == |segments|
  {
    seq(|segments|, i requires 0 <= i < |segments| => Pad2(segments[i]))
  }

  function FormatDuration(seconds: nat): (r: string)
  {
    Join(Fields(Segments(seconds)), ":")
  }

  /** Every field is a digit string of at least two digits. */
  predicate WellFormed(fields: seq<string>) {
    forall i :: 0 <= i < |fields| ==> AllDigits(fields[i]) && |fields[i]| >= 2
  }

  lemma FieldsWellFormed(segments: seq<nat>)
    ensures WellFormed(Fields(segments))
    ensures forall i :: 0 <= i < |segments| ==> ':' !in Fields(segments)[i]
  {
    var fields := Fields(segments);
    forall i | 0 <= i < |fields|
      ensures AllDigits(fields[i]) && |fields[i]| >= 2 && ':' !in fields[i]
    {
      Pad2Digits(segments[i]);
    }
  }

  /** Padded fields joined by ':' split back into the same fields. */
  lemma FieldsSplitBack(segments: seq<nat>)
    requires |segments| >= 1
    ensures Split(Join(Fields(segments), ":"), ':') == Fields(segments)
  {
    FieldsWellFormed(segments);
    SplitJoin(Fields(segments), ':');
  }

  /** Two fields read back as minutes and seconds. */
  lemma ClockOfTwoFields(m: nat, s: nat)
    ensures WellFormed(Fields([m, s])) && ClockValue(Fields([m, s])) == m * 60 + s
  {
    FieldsOfTwo(m, s);
    Pad2Digits(m);
    Pad2Digits(s);
    ClockOfTwo(Pad2(m), Pad2(s));
    FieldsWellFormed([m, s]);
  }

  lemma FieldsOfTwo(m: nat, s: nat)
    ensures Fields([m, s]) == [Pad2(m), Pad2(s)]
  {
    var fields := Fields([m, s]);
    assert fields[0] == Pad2(m);
    assert fields[1] == Pad2(s);
  }

  lemma FieldsOfThree(h: nat, m: nat, s: nat)
    ensures Fields([h, m, s]) == [Pad2(h), Pad2(m), Pad2(s)]
  {
    var segments := [h, m, s];
    var fields := Fields(segments);
    assert fields[0] == Pad2(h);
    assert fields[1] == Pad2(m);
    assert fields[2] == Pad2(s);
  }

  /** Three fields read back as hours, minutes and seconds. */
  lemma ClockOfThreeFields(h: nat, m: nat, s: nat)
    ensures WellFormed(Fields([h, m, s])) && ClockValue(Fields([h, m, s])) == h * 3600 + m * 60 + s
  {
    FieldsOfThree(h, m, s);
    Pad2Digits(h);
    Pad2Digits(m);
    Pad2Digits(s);
    ClockOfThree(Pad2(h), Pad2(m), Pad2(s));
    FieldsWellFormed([h, m, s]);
  }

  /** Below an hour: minutes and seconds only. */
  lemma ClockOfShort(seconds: nat)
    requires seconds < 3600
    ensures WellFormed(Fields(Segments(seconds)))
    ensures |Fields(Segments(seconds))| == 2 && ClockValue(Fields(Segments(seconds))) == seconds
  {
    assert Segments(seconds) == [Minutes(seconds), Seconds(seconds)];
    ClockOfTwoFields(Minutes(seconds), Seconds(seconds));
    PartsRecompose(seconds);
  }

  /** From an hour on: hours, minutes and seconds. */
  lemma ClockOfLong(seconds: nat)
    requires seconds >= 3600
    ensures WellFormed(Fields(Segments(seconds)))
    ensures |Fields(Segments(seconds))| == 3 && ClockValue(Fields(Segments(seconds))) == seconds
  {
    assert Segments(seconds) == [Hours(seconds), Minutes(seconds), Seconds(seconds)];
    ClockOfThreeFields(Hours(seconds), Minutes(seconds), Seconds(seconds));
    PartsRecompose(seconds);
  }

  /** The text has two fields below an hour and three from an hour on; every
      field has at least two digits; and read back in base 60 the fields give
      the duration. */
  lemma FormatDurationRoundTrip(seconds: nat)
    ensures var fields := Split(FormatDuration(seconds), ':');
      && |fields| == (if seconds < 3600 then 2 else 3)
      && WellFormed(fields)
      && ClockValue(fields) == seconds
  {
    FieldsSplitBack(Segments(seconds));
    if seconds < 3600 {
      ClockOfShort(seconds);
    } else {
      ClockOfLong(seconds);
    }
  }

  /** One hour, two minutes and five seconds. */
  lemma FormatOfOneHour()
    ensures FormatDuration(3725) == "01:02:05"
  {
    assert Segments(3725) == [1, 2, 5];
    Pad2OfDigit(1);
    Pad2OfDigit(2);
    Pad2OfDigit(5);
    assert Fields([1, 2, 5]) == ["01", "02", "05"];
  }
}
