/**
 * The twelve `strptime` patterns both date handlers try, in order, and what trying them in
 * that order means: the first pattern that accepts the string decides the date.
 */
module DateFormats {
  import opened Wrappers
  import opened Decimals
  import opened Dates
  import opened DateParsing
  import opened DateRendering

  const Formats: seq<string> := [
    "%Y-%m-%d", "%y-%m-%d", "%d/%m/%Y", "%d/%m/%y", "%d-%m-%Y", "%d-%m-%y",
    "%Y/%m/%d", "%y/%m/%d", "%d.%m.%Y", "%d.%m.%y", "%Y.%m.%d", "%y.%m.%d"]

  /** The `ValueError` both handlers raise when no pattern accepts the string. */
  function UnknownDateMessage(s: string): string {
    "Formato de data desconhecido: " + s
  }

  /** `%a<sep>%b<sep>%c` compiled. */
  function Layout(a: Directive, sep: char, b: Directive, c: Directive): seq<Item> {
    [Field(a), Lit(sep), Field(b), Lit(sep), Field(c)]
  }

  /** `"%Y-%m-%d"`, the pattern `date_to_str` writes and the first one tried. */
  const IsoLayout: seq<Item> := Layout(Year4, '-', Month, Day)

  lemma CompileLit(c: char, rest: string, items: seq<Item>)
    requires c != '%' && Compile(rest) == Some(items)
    ensures Compile([c] + rest) == Some([Lit(c)] + items)
  {
    var f := [c] + rest;
    assert f[0] == c && f[1..] == rest;
  }

  lemma CompileField(x: char, rest: string, items: seq<Item>)
    requires DirectiveFor(x).Some? && Compile(rest) == Some(items)
    ensures Compile(['%', x] + rest) == Some([Field(DirectiveFor(x).value)] + items)
  {
    var f := ['%', x] + rest;
    assert f[0] == '%' && f[1] == x && f[2..] == rest;
  }

  lemma CompileLayout(a: char, sep: char, b: char, c: char)
    requires sep != '%'
    requires DirectiveFor(a).Some? && DirectiveFor(b).Some? && DirectiveFor(c).Some?
    ensures Compile(['%', a, sep, '%', b, sep, '%', c])
         == Some(Layout(DirectiveFor(a).value, sep, DirectiveFor(b).value, DirectiveFor(c).value))
  {
    var da, db, dc := DirectiveFor(a).value, DirectiveFor(b).value, DirectiveFor(c).value;
    var empty: string := [];
    var none: seq<Item> := [];
    assert Compile(empty) == Some(none);
    var f6: string, i6: seq<Item> := ['%', c], [Field(dc)];
    CompileField(c, empty, none);
    assert ['%', c] + empty == f6 && [Field(dc)] + none == i6;
    var f5: string, i5: seq<Item> := [sep] + f6, [Lit(sep)] + i6;
    CompileLit(sep, f6, i6);
    var f3: string, i3: seq<Item> := ['%', b] + f5, [Field(db)] + i5;
    CompileField(b, f5, i5);
    var f2: string, i2: seq<Item> := [sep] + f3, [Lit(sep)] + i3;
    CompileLit(sep, f3, i3);
    CompileField(a, f2, i2);
    assert ['%', a] + f2 == ['%', a, sep, '%', b, sep, '%', c];
    assert [Field(da)] + i2 == Layout(da, sep, db, dc);
  }

  /** The layout of each pattern: its separator, its directives and their order. */
  function LayoutOf(i: nat): seq<Item>
    requires i < 12
  {
    var sep := if i < 2 || 4 <= i < 6 then '-' else if i < 8 then '/' else '.';
    var year := if i % 2 == 0 then Year4 else Year2;
    if i < 2 || 6 <= i < 8 || 10 <= i then Layout(year, sep, Month, Day)
    else Layout(Day, sep, Month, year)
  }

  lemma CompileFormats(i: nat)
    requires i < 12
    ensures Compile(Formats[i]) == Some(LayoutOf(i))
  {
    var f := Formats[i];
    assert |f| == 8 && f[0] == '%' && f[3] == '%' && f[6] == '%' && f[2] == f[5];
    CompileLayout(f[1], f[2], f[4], f[7]);
    assert f == ['%', f[1], f[2], '%', f[4], f[5], '%', f[7]];
  }

  /** Pattern `i` is the first of `formats` that accepts `s`. */
  ghost predicate FirstAccepting(s: string, formats: seq<string>, i: int) {
    && 0 <= i < |formats|
    && Strptime(s, formats[i]).Some?
    && forall j :: 0 <= j < i ==> Strptime(s, formats[j]).None?
  }

  /** The date the first accepting pattern gives, trying `formats` in order. */
  function FirstMatch(s: string, formats: seq<string>): (r: Option<Date>)
    ensures r.Some? ==> Valid(r.value)
  {
    if formats == [] then None
    else match Strptime(s, formats[0])
      case Some(d) => Some(d)
      case None => FirstMatch(s, formats[1..])
  }

  /** `FirstMatch` fails exactly when every pattern fails, and otherwise is the first success. */
  lemma {:induction false} FirstMatchMeaning(s: string, formats: seq<string>)
    ensures FirstMatch(s, formats).None?
        <==> forall i :: 0 <= i < |formats| ==> Strptime(s, formats[i]).None?
    ensures FirstMatch(s, formats).Some? ==>
      exists i :: FirstAccepting(s, formats, i) && Strptime(s, formats[i]) == FirstMatch(s, formats)
  {
    if formats != [] {
      var r := FirstMatch(s, formats);
      if Strptime(s, formats[0]).Some? {
        assert FirstAccepting(s, formats, 0);
      } else {
        var tail := formats[1..];
        FirstMatchMeaning(s, tail);
        assert forall i :: 1 <= i < |formats| ==> tail[i - 1] == formats[i];
        if r.Some? {
          var k :| FirstAccepting(s, tail, k) && Strptime(s, tail[k]) == r;
          assert FirstAccepting(s, formats, k + 1);
        }
      }
    }
  }

  /** The first accepting pattern is unique, so it alone decides the result. */
  lemma FirstAcceptingDecides(s: string, formats: seq<string>, i: int)
    requires FirstAccepting(s, formats, i)
    ensures FirstMatch(s, formats) == Strptime(s, formats[i])
  {
    FirstMatchMeaning(s, formats);
    var r := FirstMatch(s, formats);
    var k :| FirstAccepting(s, formats, k) && Strptime(s, formats[k]) == r;
    assert !(k < i) && !(i < k);
  }

  /** No pattern accepts the empty string. */
  lemma EmptyMatchesNothing()
    ensures FirstMatch("", Formats) == None
  {
    FirstMatchMeaning("", Formats);
    forall i | 0 <= i < |Formats| ensures Strptime("", Formats[i]).None? {
      CompileFormats(i);
      EmptyNeverParses(LayoutOf(i));
    }
  }

  /** `date.strftime("%Y-%m-%d")`. */
  function IsoText(d: Date): string
    requires Valid(d)
  {
    Render(d, IsoLayout)
  }

  /** The text is `YYYY-MM-DD`, each field zero-padded and read back. */
  lemma IsoTextShape(d: Date)
    requires Valid(d)
    ensures var t := IsoText(d);
      && |t| == 10 && t[4] == '-' && t[7] == '-'
      && AllDigits(t[..4]) && AllDigits(t[5..7]) && AllDigits(t[8..])
      && DigitsToNat(t[..4]) == d.year
      && DigitsToNat(t[5..7]) == d.month
      && DigitsToNat(t[8..]) == d.day
  {
    var y, m, dd := FieldText(d, Year4), FieldText(d, Month), FieldText(d, Day);
    var t := IsoText(d);
    RenderLayout(d, Year4, '-', Month, Day);
    assert t == y + ("-" + (m + ("-" + dd)));
    assert t[..4] == y && t[5..7] == m && t[8..] == dd;
  }

  /** The form and the round trip of `YYYY-MM-DD`, for every date. */
  lemma IsoRoundTrip(d: Date)
    requires Valid(d)
    ensures var t := IsoText(d);
      && |t| == 10 && t[4] == '-' && t[7] == '-'
      && AllDigits(t[..4]) && AllDigits(t[5..7]) && AllDigits(t[8..])
    ensures FirstMatch(IsoText(d), Formats) == Some(d)
  {
    IsoTextShape(d);
    IsoReadsBack(d);
  }

  /** Each pattern reads back the text it writes for a date whose year it can hold. */
  lemma FormatReadsBack(d: Date, i: nat)
    requires i < 12 && Valid(d) && YearsFit(d, LayoutOf(i))
    ensures Strptime(Render(d, LayoutOf(i)), Formats[i]) == Some(d)
  {
    CompileFormats(i);
    RenderParsesBack(d, LayoutOf(i));
  }

  /** A date written as `YYYY-MM-DD` is read back by the first pattern. */
  lemma IsoReadsBack(d: Date)
    requires Valid(d)
    ensures FirstMatch(IsoText(d), Formats) == Some(d)
  {
    FormatReadsBack(d, 0);
    assert FirstAccepting(IsoText(d), Formats, 0);
    FirstAcceptingDecides(IsoText(d), Formats, 0);
  }

  /** The text of a three-field layout, field by field. */
  lemma RenderLayout(d: Date, a: Directive, sep: char, b: Directive, c: Directive)
    requires Valid(d)
    ensures Render(d, Layout(a, sep, b, c))
         == FieldText(d, a) + ([sep] + (FieldText(d, b) + ([sep] + FieldText(d, c))))
  {
    var l := Layout(a, sep, b, c);
    var ta, tb, tc := FieldText(d, a), FieldText(d, b), FieldText(d, c);
    assert Render(d, l[4..]) == tc by {
      assert l[4..][1..] == [];
    }
    assert Render(d, l[3..]) == [sep] + tc by {
      assert l[3..][1..] == l[4..];
    }
    assert Render(d, l[2..]) == tb + ([sep] + tc) by {
      assert l[2..][1..] == l[3..];
    }
    assert Render(d, l[1..]) == [sep] + (tb + ([sep] + tc)) by {
      assert l[1..][1..] == l[2..];
    }
  }

  /** A year below 1000 is zero-padded: 1 January 999 is written `0999-01-01` and read back. */
  lemma EarlyYearPadded()
    ensures IsoText(Date(999, 1, 1)) == "0999-01-01"
    ensures FirstMatch("0999-01-01", Formats) == Some(Date(999, 1, 1))
  {
    EarlyYearText();
    IsoReadsBack(Date(999, 1, 1));
  }

  lemma EarlyYearText()
    ensures IsoText(Date(999, 1, 1)) == "0999-01-01"
  {
    var d := Date(999, 1, 1);
    RenderLayout(d, Year4, '-', Month, Day);
    assert FieldText(d, Year4) == "0999" by { PaddedYear(); }
    assert FieldText(d, Month) == "01" by { TwoDigitField(d, Month, 1, "01"); }
    assert FieldText(d, Day) == "01" by { TwoDigitField(d, Day, 1, "01"); }
    assert "0999" + (['-'] + ("01" + (['-'] + "01"))) == "0999-01-01";
  }

  lemma PaddedYear()
    ensures FixedDigits(999, 4) == "0999"
  {
    assert FixedDigits(0, 1) == "0";
    assert FixedDigits(9, 2) == "09";
    assert FixedDigits(99, 3) == "099";
  }

  /** A two-digit field whose number is `n` writes the two digits of `n`. */
  lemma TwoDigitField(d: Date, dir: Directive, n: nat, t: string)
    requires Valid(d) && dir != Year4 && FieldNumber(d, dir) == n
    requires n < 100 && t == [DigitChar(n / 10), DigitChar(n % 10)]
    ensures FieldText(d, dir) == t
  {
    TwoDigits(n);
  }

  /** `%y-%m-%d` reads `"10-01-25"` as 25 January 2010. */
  lemma YearFirstReading()
    ensures Strptime("10-01-25", Formats[1]) == Some(Date(2010, 1, 25))
  {
    var d := Date(2010, 1, 25);
    YearFirstText();
    var l := LayoutOf(1);
    assert l == Layout(Year2, '-', Month, Day);
    assert Render(d, l) == "10-01-25";
    assert YearsFit(d, l);
    FormatReadsBack(d, 1);
  }

  lemma YearFirstText()
    ensures Render(Date(2010, 1, 25), Layout(Year2, '-', Month, Day)) == "10-01-25"
  {
    var d := Date(2010, 1, 25);
    RenderLayout(d, Year2, '-', Month, Day);
    assert FieldText(d, Year2) == "10" by { TwoDigitField(d, Year2, 10, "10"); }
    assert FieldText(d, Month) == "01" by { TwoDigitField(d, Month, 1, "01"); }
    assert FieldText(d, Day) == "25" by { TwoDigitField(d, Day, 25, "25"); }
    assert "10" + (['-'] + ("01" + (['-'] + "25"))) == "10-01-25";
  }

  /** `%d-%m-%y` reads `"10-01-25"` as 10 January 2025. */
  lemma DayFirstReading()
    ensures Strptime("10-01-25", Formats[5]) == Some(Date(2025, 1, 10))
  {
    var d := Date(2025, 1, 10);
    DayFirstText();
    var l := LayoutOf(5);
    assert l == Layout(Day, '-', Month, Year2);
    assert Render(d, l) == "10-01-25";
    assert YearsFit(d, l);
    FormatReadsBack(d, 5);
  }

  lemma DayFirstText()
    ensures Render(Date(2025, 1, 10), Layout(Day, '-', Month, Year2)) == "10-01-25"
  {
    var d := Date(2025, 1, 10);
    RenderLayout(d, Day, '-', Month, Year2);
    assert FieldText(d, Day) == "10" by { TwoDigitField(d, Day, 10, "10"); }
    assert FieldText(d, Month) == "01" by { TwoDigitField(d, Month, 1, "01"); }
    assert FieldText(d, Year2) == "25" by { TwoDigitField(d, Year2, 25, "25"); }
    assert "10" + (['-'] + ("01" + (['-'] + "25"))) == "10-01-25";
  }

  /** `%Y-%m-%d` needs four digits before the first `-`. */
  lemma FourDigitYearRejects()
    ensures Strptime("10-01-25", Formats[0]).None?
  {
    var s := "10-01-25";
    CompileFormats(0);
    var alt := Alternatives(Year4)[0];
    var third, r2 := s[2], alt[2];
    assert third == '-' && r2 == AnyDigit;
    assert !Fits(alt, s, 0);
    assert MatchFrom(IsoLayout, s, 0).None?;
  }

  /**
   * `"10-01-25"` is accepted by `%y-%m-%d` (as 25 January 2010) and by `%d-%m-%y` (as
   * 10 January 2025); the earlier pattern wins.
   */
  lemma AmbiguousDateTakesEarlierPattern()
    ensures Strptime("10-01-25", Formats[5]) == Some(Date(2025, 1, 10))
    ensures FirstMatch("10-01-25", Formats) == Some(Date(2010, 1, 25))
  {
    YearFirstReading();
    DayFirstReading();
    FourDigitYearRejects();
    assert FirstAccepting("10-01-25", Formats, 1);
    FirstAcceptingDecides("10-01-25", Formats, 1);
  }
}
