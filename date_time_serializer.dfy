/** DateTimeSerializer: a timestamp is written as one JSON string produced by the
    plug-in's shared formatter, an RFC 3339 (section 5.6) date-time with
    milliseconds and a literal 'Z' offset: yyyy-MM-ddTHH:mm:ss.SSSZ. The default
    time zone is forced to UTC when the plug-in context is built, so the fields
    are UTC fields. */
module DateTimeSerializer {
  import opened Wrappers
  import opened Decimal
  import JsonOutput

  /** The calendar fields of an instant in UTC. */
  datatype DateTimeFields = DateTimeFields(year: int, month: int, day: int,
                                           hour: int, minute: int, second: int, millis: int)

  /** The ranges a Joda ISO chronology produces. */
  predicate InRange(f: DateTimeFields) {
    1 <= f.month <= 12 && 1 <= f.day <= 31 && 0 <= f.hour <= 23 &&
    0 <= f.minute <= 59 && 0 <= f.second <= 59 && 0 <= f.millis <= 999
  }

  predicate FourDigitYear(f: DateTimeFields) {
    0 <= f.year <= 9999
  }

  /** The shared formatter: appendYear(4, 4), month, day, hour, minute and second
      with two digits, millis of second with three, literals in between and a
      closing 'Z'. */
  function Print(f: DateTimeFields): string {
    Signed(f.year, 4) + "-" + Signed(f.month, 2) + "-" + Signed(f.day, 2) + "T" +
    Signed(f.hour, 2) + ":" + Signed(f.minute, 2) + ":" + Signed(f.second, 2) + "." +
    Signed(f.millis, 3) + "Z"
  }

  /** Writes the timestamp as exactly one JSON string, the shared formatter's output. */
  method Serialize(dateTime: DateTimeFields, jgen: JsonOutput.JsonGenerator)
    modifies jgen
    ensures jgen.written == old(jgen.written) + [Print(dateTime)]
  {
    jgen.WriteString(Print(dateTime));
  }

  /** Reads back a 24-character text in the fixed layout. */
  function Parse(s: string): Option<DateTimeFields> {
    if |s| == 24 && s[4] == '-' && s[7] == '-' && s[10] == 'T' && s[13] == ':' &&
       s[16] == ':' && s[19] == '.' && s[23] == 'Z' &&
       AllDigits(s[0..4]) && AllDigits(s[5..7]) && AllDigits(s[8..10]) && AllDigits(s[11..13]) &&
       AllDigits(s[14..16]) && AllDigits(s[17..19]) && AllDigits(s[20..23])
    then Some(DateTimeFields(ValueOf(s[0..4]), ValueOf(s[5..7]), ValueOf(s[8..10]), ValueOf(s[11..13]),
                             ValueOf(s[14..16]), ValueOf(s[17..19]), ValueOf(s[20..23])))
    else None
  }

  lemma FieldWidths(f: DateTimeFields)
    requires InRange(f) && FourDigitYear(f)
    ensures |Padded(f.year, 4)| == 4 && |Padded(f.month, 2)| == 2 && |Padded(f.day, 2)| == 2
    ensures |Padded(f.hour, 2)| == 2 && |Padded(f.minute, 2)| == 2 && |Padded(f.second, 2)| == 2
    ensures |Padded(f.millis, 3)| == 3
  {
    PaddedWidth(f.year, 4);
    PaddedWidth(f.month, 2);
    PaddedWidth(f.day, 2);
    PaddedWidth(f.hour, 2);
    PaddedWidth(f.minute, 2);
    PaddedWidth(f.second, 2);
    PaddedWidth(f.millis, 3);
  }

  /** For a four-digit year the text is exactly 24 characters. */
  lemma Length24(f: DateTimeFields)
    requires InRange(f) && FourDigitYear(f)
    ensures |Print(f)| == 24
  {
    FieldWidths(f);
  }

  /** The text always ends in a literal 'Z', whatever the fields. */
  lemma EndsInZ(f: DateTimeFields)
    ensures |Print(f)| > 0 && Print(f)[|Print(f)| - 1] == 'Z'
  {
  }

  lemma Peel(a: string, c: char, b: string)
    ensures (a + [c] + b)[..|a|] == a && (a + [c] + b)[|a|] == c && (a + [c] + b)[|a| + 1..] == b
  {
    assert (a + [c] + b)[|a| + 1..] == b;
  }

  /** Where each piece of a text laid out like the formatter's output sits. */
  lemma LayoutOf(Y: string, Mo: string, D: string, h: string, mi: string, se: string, ms: string)
    requires |Y| == 4 && |Mo| == 2 && |D| == 2 && |h| == 2 && |mi| == 2 && |se| == 2 && |ms| == 3
    ensures var s := Y + "-" + Mo + "-" + D + "T" + h + ":" + mi + ":" + se + "." + ms + "Z";
      |s| == 24 && s[4] == '-' && s[7] == '-' && s[10] == 'T' && s[13] == ':' &&
      s[16] == ':' && s[19] == '.' && s[23] == 'Z' &&
      s[0..4] == Y && s[5..7] == Mo && s[8..10] == D && s[11..13] == h &&
      s[14..16] == mi && s[17..19] == se && s[20..23] == ms
  {
    var t7 := ms + "Z";
    var t6 := se + ['.'] + t7;
    var t5 := mi + [':'] + t6;
    var t4 := h + [':'] + t5;
    var t3 := D + ['T'] + t4;
    var t2 := Mo + ['-'] + t3;
    var s := Y + "-" + Mo + "-" + D + "T" + h + ":" + mi + ":" + se + "." + ms + "Z";
    assert s == Y + ['-'] + t2;
    Peel(Y, '-', t2);
    Peel(Mo, '-', t3);
    Peel(D, 'T', t4);
    Peel(h, ':', t5);
    Peel(mi, ':', t6);
    Peel(se, '.', t7);
    assert s[5..] == t2;
    assert s[8..] == t3;
    assert s[11..] == t4;
    assert s[14..] == t5;
    assert s[17..] == t6;
    assert s[20..] == t7;
  }

  /** Every field sits at a fixed position, so parsing the printed text gives back
      the fields: the layout loses nothing for four-digit years. */
  lemma PrintParse(f: DateTimeFields)
    requires InRange(f) && FourDigitYear(f)
    ensures Parse(Print(f)) == Some(f)
  {
    FieldWidths(f);
    LayoutOf(Padded(f.year, 4), Padded(f.month, 2), Padded(f.day, 2), Padded(f.hour, 2),
             Padded(f.minute, 2), Padded(f.second, 2), Padded(f.millis, 3));
    ValueOfPadded(f.year, 4);
    ValueOfPadded(f.month, 2);
    ValueOfPadded(f.day, 2);
    ValueOfPadded(f.hour, 2);
    ValueOfPadded(f.minute, 2);
    ValueOfPadded(f.second, 2);
    ValueOfPadded(f.millis, 3);
  }
}
