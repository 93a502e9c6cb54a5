/**
 * The `hh:mm` parser of `SetTriggerTime` and the `%d:%02d` rendering its
 * log lines use (src/coffee/coffeeTimer.go).
 */
module TriggerTime {
  import opened Wrappers
  import opened GoStrings

  datatype TimeOfDay = TimeOfDay(hour: int, minute: int)

  /**
   * Split on `:`, demand exactly two fields, convert each with Atoi; any
   * failure yields `None`.  Seconds (`hh:mm:ss`) are rejected.
   */
  function ParseTriggerTime(text: string): (r: Option<TimeOfDay>)
    ensures r.Some? ==> Count(text, ':') == 1
  {
    SplitLength(text, ':');
    var fields := Split(text, ':');
    if |fields| != 2 then None
    else
      match Atoi(fields[0])
      case None => None
      case Some(hour) =>
        match Atoi(fields[1])
        case None => None
        case Some(minute) => Some(TimeOfDay(hour, minute))
  }

  /** Go's `fmt.Sprintf("%02d", n)`: zero-padded to two characters, sign included. */
  function Pad2(n: int): (p: string)
    ensures 0 <= n < 100 ==> |p| == 2
    ensures |p| > 0 && (p[0] == '-' <==> n < 0)
  {
    assert 10 <= n < 100 ==> |NatDigits(n / 10)| == 1;
    if 0 <= n < 10 then ['0'] + Itoa(n) else Itoa(n)
  }

  /** Go's `fmt.Sprintf("%d:%02d", hour, minute)`. */
  function FormatTriggerTime(t: TimeOfDay): (text: string)
    ensures Count(text, ':') == 1
  {
    ItoaHasNoColon(t.hour);
    ItoaHasNoColon(t.minute);
    CountZero(Itoa(t.hour), ':');
    CountZero(Pad2(t.minute), ':');
    CountAppend(Itoa(t.hour), [':'], ':');
    CountAppend(Itoa(t.hour) + [':'], Pad2(t.minute), ':');
    Itoa(t.hour) + [':'] + Pad2(t.minute)
  }

  /** Any text with no colon or with more than one colon is rejected. */
  lemma RejectsWrongFieldCount(text: string)
    requires Count(text, ':') != 1
    ensures ParseTriggerTime(text) == None
  {
    SplitLength(text, ':');
  }

  /**
   * Text of the form `a:b` (no other colon) is accepted exactly when Atoi
   * accepts both parts, and then carries their values.
   */
  lemma ParsesTwoFields(a: string, b: string)
    requires ':' !in a && ':' !in b
    ensures ParseTriggerTime(a + [':'] + b)
      == if Atoi(a).Some? && Atoi(b).Some? then Some(TimeOfDay(Atoi(a).value, Atoi(b).value)) else None
  {
    SplitTwoFields(a, b, ':');
  }

  /** Every accepted text has that shape, so the two lemmas above describe the parser completely. */
  lemma AcceptedTextShape(text: string)
    requires ParseTriggerTime(text).Some?
    ensures Count(text, ':') == 1
    ensures var f := Split(text, ':');
      && text == f[0] + [':'] + f[1]
      && ParseTriggerTime(text) == Some(TimeOfDay(Atoi(f[0]).value, Atoi(f[1]).value))
  {
    SplitLength(text, ':');
    SplitTwoFieldsInverse(text, ':');
  }

  lemma ItoaHasNoColon(n: int)
    ensures ':' !in Itoa(n)
  {
    var d := NatDigits(if n < 0 then -n else n);
    assert IsDigits(d);
    if n < 0 {
      assert forall i :: 0 <= i < |Itoa(n)| ==> Itoa(n)[i] == '-' || IsDigit(Itoa(n)[i]);
    }
  }

  lemma AtoiPad2(n: int)
    ensures ':' !in Pad2(n) && Atoi(Pad2(n)) == Some(n)
  {
    ItoaHasNoColon(n);
    AtoiItoa(n);
    if 0 <= n < 10 {
      var d := NatDigits(n);
      DigitsValueZeroPrefix(d);
      NatDigitsValue(n);
    }
  }

  /** Reading back what `%d:%02d` prints gives the same time of day, for every pair of integers. */
  lemma ParseFormatRoundTrip(t: TimeOfDay)
    ensures ParseTriggerTime(FormatTriggerTime(t)) == Some(t)
  {
    ItoaHasNoColon(t.hour);
    AtoiItoa(t.hour);
    AtoiPad2(t.minute);
    ParsesTwoFields(Itoa(t.hour), Pad2(t.minute));
  }

  /** The configured default `8:30`. */
  lemma AcceptsDefault()
    ensures ParseTriggerTime("8:30") == Some(TimeOfDay(8, 30))
  {
    assert Itoa(8) == "8";
    assert NatDigits(3) == "3";
    assert Pad2(30) == "30";
    assert FormatTriggerTime(TimeOfDay(8, 30)) == "8:30";
    ParseFormatRoundTrip(TimeOfDay(8, 30));
  }

  /** A zero-padded minute. */
  lemma AcceptsPaddedMinute()
    ensures ParseTriggerTime("7:05") == Some(TimeOfDay(7, 5))
  {
    assert Itoa(7) == "7";
    assert Pad2(5) == "05";
    assert FormatTriggerTime(TimeOfDay(7, 5)) == "7:05";
    ParseFormatRoundTrip(TimeOfDay(7, 5));
  }

  /** Inputs the parser turns away: no colon, too many fields (seconds included), an empty minute. */
  lemma RejectsExamples()
    ensures ParseTriggerTime("abc") == None
    ensures ParseTriggerTime("12") == None
    ensures ParseTriggerTime("3:04:05") == None
    ensures ParseTriggerTime("8:") == None
  {
    CountZero("abc", ':');
    RejectsWrongFieldCount("abc");
    CountZero("12", ':');
    RejectsWrongFieldCount("12");
    CountAppend("3:04", ":05", ':');
    CountAppend("3", ":04", ':');
    assert "3:04:05" == "3:04" + ":05";
    assert "3:04" == "3" + ":04";
    RejectsWrongFieldCount("3:04:05");
    assert "8:" == "8" + [':'] + "";
    ParsesTwoFields("8", "");
  }
}
