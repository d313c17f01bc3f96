/** PeriodSerializer: a Joda Period is written as one JSON string laid out as
    hours ':' minutes ':' seconds '.' millis, every field printed even when it is
    zero and left-padded with zeros to at least two digits. */
module PeriodSerializer {
  import opened Wrappers
  import opened Decimal
  import JsonOutput

  /** The fields of a Joda Period (standard period type). */
  datatype Period = Period(years: int, months: int, weeks: int, days: int,
                           hours: int, minutes: int, seconds: int, millis: int)

  datatype Clock = Clock(hours: nat, minutes: nat, seconds: nat, millis: nat)

  /** minimumPrintedDigits(2) of the FORMATER builder. */
  const MinimumPrintedDigits: nat := 2

  /** FORMATER.print: printZeroAlways, minimum two digits, hours:minutes:seconds.millis. */
  function Print(p: Period): string {
    Signed(p.hours, MinimumPrintedDigits) + ":" + Signed(p.minutes, MinimumPrintedDigits) + ":" +
    Signed(p.seconds, MinimumPrintedDigits) + "." + Signed(p.millis, MinimumPrintedDigits)
  }

  /** Writes the period as exactly one JSON string, the formatter's output. */
  method Serialize(period: Period, jgen: JsonOutput.JsonGenerator)
    modifies jgen
    ensures jgen.written == old(jgen.written) + [Print(period)]
  {
    jgen.WriteString(Print(period));
  }

  /** Index of the first c in s, or |s| when there is none. */
  function Find(s: string, c: char): (i: nat)
    ensures i <= |s|
    ensures forall j :: 0 <= j < i ==> s[j] != c
    ensures i < |s| ==> s[i] == c
  {
    if |s| == 0 then 0 else if s[0] == c then 0 else 1 + Find(s[1..], c)
  }

  /** Reads back a text laid out as FORMATER prints non-negative periods. */
  function ParseClock(s: string): Option<Clock> {
    var i := Find(s, ':');
    if i == |s| then None else
    var h, r1 := s[..i], s[i + 1..];
    var j := Find(r1, ':');
    if j == |r1| then None else
    var m, r2 := r1[..j], r1[j + 1..];
    var k := Find(r2, '.');
    if k == |r2| then None else
    var sec, ms := r2[..k], r2[k + 1..];
    if AllDigits(h) && AllDigits(m) && AllDigits(sec) && AllDigits(ms) then
      Some(Clock(ValueOf(h), ValueOf(m), ValueOf(sec), ValueOf(ms)))
    else None
  }

  lemma SplitFirst(a: string, c: char, b: string)
    requires AllDigits(a) && !IsDigit(c)
    ensures Find(a + [c] + b, c) == |a|
    ensures (a + [c] + b)[..|a|] == a && (a + [c] + b)[|a| + 1..] == b
  {
    var s := a + [c] + b;
    assert forall j :: 0 <= j < |a| ==> s[j] == a[j];
    assert s[|a|] == c;
  }

  /** Parsing the printed text of a period with non-negative clock fields gives
      back exactly those fields: the layout is unambiguous. */
  lemma PrintParse(p: Period)
    requires p.hours >= 0 && p.minutes >= 0 && p.seconds >= 0 && p.millis >= 0
    ensures ParseClock(Print(p)) == Some(Clock(p.hours, p.minutes, p.seconds, p.millis))
  {
    var H, M, S, L := Padded(p.hours, 2), Padded(p.minutes, 2), Padded(p.seconds, 2), Padded(p.millis, 2);
    var r2 := S + "." + L;
    var r1 := M + ":" + r2;
    assert Print(p) == H + [':'] + r1;
    SplitFirst(H, ':', r1);
    assert r1 == M + [':'] + r2;
    SplitFirst(M, ':', r2);
    assert r2 == S + ['.'] + L;
    SplitFirst(S, '.', L);
    ValueOfPadded(p.hours, 2);
    ValueOfPadded(p.minutes, 2);
    ValueOfPadded(p.seconds, 2);
    ValueOfPadded(p.millis, 2);
  }

  /** A zero period is printed with every field: "00:00:00.00". */
  lemma ZeroPeriod()
    ensures Print(Period(0, 0, 0, 0, 0, 0, 0, 0)) == "00:00:00.00"
  {
    assert Digits(0) == "0";
    assert Padded(0, 2) == "00";
  }

  /** Two digits are a minimum: 123 ms is printed in full. */
  lemma WideMillis(p: Period)
    requires p.hours == 0 && p.minutes == 0 && p.seconds == 0 && p.millis == 123
    ensures Print(p) == "00:00:00.123"
  {
    assert Digits(0) == "0";
    assert Padded(0, 2) == "00";
    assert Digits(1) == "1";
    assert Digits(12) == "12";
    assert Digits(123) == "123";
  }

  /** Every non-negative field takes at least two characters, and a field below
      100 exactly two, so the text of such a period is exactly 11 characters. */
  lemma FieldWidths(p: Period)
    requires 0 <= p.hours < 100 && 0 <= p.minutes < 100 && 0 <= p.seconds < 100 && 0 <= p.millis < 100
    ensures |Print(p)| == 11
  {
    PaddedWidth(p.hours, 2);
    PaddedWidth(p.minutes, 2);
    PaddedWidth(p.seconds, 2);
    PaddedWidth(p.millis, 2);
  }

  /** Years, months, weeks and days never reach the output. */
  lemma OnlyClockFields(p: Period, q: Period)
    requires p.hours == q.hours && p.minutes == q.minutes && p.seconds == q.seconds && p.millis == q.millis
    ensures Print(p) == Print(q)
  {
  }
}
