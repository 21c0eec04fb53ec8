/** `helpers/date_handler.py`: `DateHandler.str_to_date`, `date_to_str` and the interval check. */
module HelpersDateHandler {
  import opened Wrappers
  import opened Decimals
  import opened Dates
  import opened DateParsing
  import opened DateFormats

  /**
   * `str_to_date`: `None` for the empty string; otherwise the date of the first pattern that
   * accepts the string, or the `ValueError` message when none does.
   */
  method StrToDate(dateStr: string) returns (r: Result<Option<Date>, string>)
    ensures dateStr == [] ==> r == Success(None)
    ensures dateStr != [] ==> r == match FirstMatch(dateStr, Formats)
      case Some(d) => Success(Some(d))
      case None => Failure(UnknownDateMessage(dateStr))
    ensures r.Success? && r.value.Some? ==> Valid(r.value.value)
    ensures r.Success? && r.value.Some? ==>
      exists i :: FirstAccepting(dateStr, Formats, i) && Strptime(dateStr, Formats[i]) == r.value
    ensures r.Failure? <==>
      dateStr != [] && forall i :: 0 <= i < |Formats| ==> Strptime(dateStr, Formats[i]).None?
  {
    FirstMatchMeaning(dateStr, Formats);
    if dateStr == [] {
      return Success(None);
    }
    for i := 0 to |Formats|
      invariant FirstMatch(dateStr, Formats[i..]) == FirstMatch(dateStr, Formats)
    {
      var parsed := Strptime(dateStr, Formats[i]);
      if parsed.Some? {
        return Success(Some(parsed.value));
      }
      assert Formats[i..][1..] == Formats[i + 1..];
    }
    return Failure(UnknownDateMessage(dateStr));
  }

  /** `date_to_str`: zero-padded `YYYY-MM-DD`, which `str_to_date` reads back as the same date. */
  function DateToStr(d: Date): (r: string)
    requires Valid(d)
    ensures |r| == 10 && r[4] == '-' && r[7] == '-'
    ensures AllDigits(r[..4]) && AllDigits(r[5..7]) && AllDigits(r[8..])
    ensures FirstMatch(r, Formats) == Some(d)
  {
    IsoRoundTrip(d);
    IsoText(d)
  }

  /**
   * `valida_data_entre_intervalo`: `data_inicial <= data_alvo <= data_final`, the inclusive
   * interval of day numbers, which is empty when the start comes after the end.
   */
  predicate IsWithinInterval(target: Date, start: Date, end: Date): (r: bool)
    ensures Valid(target) && Valid(start) && Valid(end) ==>
      (r <==> Ordinal(start) <= Ordinal(target) <= Ordinal(end))
    ensures r ==> LessEq(start, end)
  {
    LessEqTotalOrder(start, target, end);
    LessEq(start, target) && LessEq(target, end)
  }

  /** Both ends belong to a non-empty interval; a reversed interval holds no date at all. */
  lemma IntervalEnds(target: Date, start: Date, end: Date)
    ensures LessEq(start, end) ==> IsWithinInterval(start, start, end) && IsWithinInterval(end, start, end)
    ensures !LessEq(start, end) ==> !IsWithinInterval(target, start, end)
  {
    LessEqTotalOrder(start, target, end);
  }
}
