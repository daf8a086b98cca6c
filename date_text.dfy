/** The date and time text both fill renderers write for a `Date` (src/ddl/mssql/getTableFill.ts
    and src/ddl/ora/getTableFill.ts render it the same way). */
module DateText {
  import opened Text
  import opened JsValues

  /** `String(n).padStart(width, '0')`. */
  function Padded(n: nat, width: nat): string
  {
    PadStart(NatToString(n), width, '0')
  }

  /** `year-MM-dd`: the year as written, month and day padded to two digits. */
  function DatePart(d: DateTime): string
  {
    IntToString(d.year) + "-" + Padded(d.month, 2) + "-" + Padded(d.day, 2)
  }

  /** `HH:mm:ss.SSS`. */
  function TimePart(d: DateTime): string
  {
    Padded(d.hours, 2) + ":" + Padded(d.minutes, 2) + ":" + Padded(d.seconds, 2) + "." + Padded(d.millis, 3)
  }

  /** The source's midnight test, on the padded texts. */
  predicate IsMidnightText(d: DateTime)
  {
    Padded(d.hours, 2) == "00" && Padded(d.minutes, 2) == "00" && Padded(d.seconds, 2) == "00" &&
    Padded(d.millis, 3) == "000"
  }

  /** A padded number is all digits, exactly `width` long when it fits, and reads back as the
      number. */
  lemma PaddedSpec(n: nat, width: nat)
    ensures var p := Padded(n, width);
      (forall i :: 0 <= i < |p| ==> IsDigit(p[i])) && DigitsValue(p) == n &&
      |p| >= width && (|NatToString(n)| <= width ==> |p| == width)
  {
    var s := NatToString(n);
    NatToStringValue(n);
    if |s| < width {
      DigitsValueLeadingZeros(width - |s|, s);
    }
  }

  /** Comparing the padded texts with zeros is the same as comparing the components with 0. */
  lemma MidnightTextIff(d: DateTime)
    ensures IsMidnightText(d) <==> d.hours == 0 && d.minutes == 0 && d.seconds == 0 && d.millis == 0
  {
    assert Repeat('0', 2) == "00";
    assert Repeat('0', 3) == "000";
    PadStartZeros(d.hours, 2);
    PadStartZeros(d.minutes, 2);
    PadStartZeros(d.seconds, 2);
    PadStartZeros(d.millis, 3);
  }
}
