/** `core/date_handler.py`: `DateHandler.str_to_date` without the empty-string shortcut, and `date_to_str`. */
module CoreDateHandler {
  import opened Wrappers
  import opened Decimals
  import opened Dates
  import opened DateParsing
  import opened DateFormats

  /**
   * `str_to_date`: the date of the first pattern that accepts the string, or the `ValueError`
   * message when none does, which includes the empty string.
   */
  method StrToDate(dateStr: string) returns (r: Result<Date, string>)
    ensures r == match FirstMatch(dateStr, Formats)
      case Some(d) => Success(d)
      case None => Failure(UnknownDateMessage(dateStr))
    ensures r.Success? ==> Valid(r.value)
    ensures r.Success? ==>
      exists i :: FirstAccepting(dateStr, Formats, i) && Strptime(dateStr, Formats[i]) == Some(r.value)
    ensures r.Failure? <==> forall i :: 0 <= i < |Formats| ==> Strptime(dateStr, Formats[i]).None?
    ensures dateStr == [] ==> r.Failure? && r.error == UnknownDateMessage("")
  {
    FirstMatchMeaning(dateStr, Formats);
    EmptyMatchesNothing();
    for i := 0 to |Formats|
      invariant FirstMatch(dateStr, Formats[i..]) == FirstMatch(dateStr, Formats)
    {
      var parsed := Strptime(dateStr, Formats[i]);
      if parsed.Some? {
        return Success(parsed.value);
      }
      assert Formats[i..][1..] == Formats[i + 1..];
    }
    return Failure(UnknownDateMessage(dateStr));
  }

  /** `date_to_str`: zero-padded `YYYY-MM-DD`, which `str_to_date` reads back as the same date. */
  function DateToStr(d: Date): (r: string)
    requires Valid(d)
    ensures |r| == 10 && r[4] == '-' && r[7] == '-'
    ensures AllDigits(r[..4]) && AllDigits(r[5..7]) && AllDigits(r[8..])
    ensures FirstMatch(r, Formats) == Some(d)
  {
    IsoRoundTrip(d);
    IsoText(d)
  }
}
