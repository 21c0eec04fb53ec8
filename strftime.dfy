/**
 * `date.strftime` for the four directives (`%Y` the year in four digits, `%y`, `%m` and `%d`
 * two digits, all zero-padded), and the round trip through `strptime`.
 */
module DateRendering {
  import opened Wrappers
  import opened Decimals
  import opened Dates
  import opened DateParsing

  /** The number a directive writes: the year, the year within its century, the month, the day. */
  function FieldNumber(d: Date, dir: Directive): nat
    requires Valid(d)
  {
    match dir
    case Year4 => d.year
    case Year2 => d.year % 100
    case Month => d.month
    case Day => d.day
  }

  /** How many digits a directive writes. */
  function FieldWidth(dir: Directive): nat {
    if dir == Year4 then 4 else 2
  }

  /** The text one directive puts in the output: its number, zero-padded to the field's width. */
  function FieldText(d: Date, dir: Directive): (r: string)
    requires Valid(d)
    ensures |r| == FieldWidth(dir) && AllDigits(r)
    ensures DigitsToNat(r) == FieldNumber(d, dir)
  {
    var n, w := FieldNumber(d, dir), FieldWidth(dir);
    assert Pow10(2) == 100 && Pow10(4) == 10000;
    FixedDigitsRoundTrip(n, w);
    FixedDigits(n, w)
  }

  /** The length of a rendering: one character per literal and a field's width per directive. */
  function RenderedLength(items: seq<Item>): nat {
    if items == [] then 0
    else (if items[0].Lit? then 1 else FieldWidth(items[0].directive)) + RenderedLength(items[1..])
  }

  /** `d.strftime(fmt)` for a compiled format: its length depends on the format alone. */
  function Render(d: Date, items: seq<Item>): (r: string)
    requires Valid(d)
    ensures |r| == RenderedLength(items)
  {
    if items == [] then []
    else match items[0]
      case Lit(c) => [c] + Render(d, items[1..])
      case Field(dir) => FieldText(d, dir) + Render(d, items[1..])
  }

  /** The groups `strptime` should capture from a rendered date: each field's text, in order. */
  function Captures(d: Date, items: seq<Item>): seq<Capture>
    requires Valid(d)
  {
    if items == [] then []
    else match items[0]
      case Lit(_) => Captures(d, items[1..])
      case Field(dir) => [Capture(dir, FieldText(d, dir))] + Captures(d, items[1..])
  }

  /** The year can be read back: `%y` keeps only the century 1969-2068. */
  predicate YearsFit(d: Date, items: seq<Item>) {
    Field(Year2) in items ==> 1969 <= d.year <= 2068
  }

  lemma TwoDigits(n: nat)
    requires n < 100
    ensures FixedDigits(n, 2) == [DigitChar(n / 10), DigitChar(n % 10)]
  {
    var q := n / 10;
    assert q < 10 && q % 10 == q && q / 10 == 0;
    assert FixedDigits(q, 1) == FixedDigits(0, 0) + [DigitChar(q)];
    assert FixedDigits(n, 2) == FixedDigits(q, 1) + [DigitChar(n % 10)];
  }

  /** A run of digits fits a group of `\d` ranges as long as the run. */
  lemma DigitsFit(dir: Directive, t: string, s: string, pos: nat)
    requires dir == Year4 || dir == Year2
    requires |t| == |Alternatives(dir)[0]| && AllDigits(t)
    requires pos + |t| <= |s| && s[pos..pos + |t|] == t
    ensures Fits(Alternatives(dir)[0], s, pos)
  {
    var alt := Alternatives(dir)[0];
    forall i | 0 <= i < |alt|
      ensures alt[i].lo <= s[pos + i] <= alt[i].hi
    {
      assert s[pos + i] == t[i] && alt[i] == AnyDigit;
    }
  }

  /** `TryAlts` takes the first alternative that fits when the rest then matches. */
  lemma {:induction false} TryFirstFitting(
    dir: Directive, alts: seq<seq<Range>>, rest: seq<Item>, s: string, pos: nat, k: nat)
    requires pos <= |s| && k < |alts|
    requires forall j :: 0 <= j < k ==> !Fits(alts[j], s, pos)
    requires Fits(alts[k], s, pos) && MatchFrom(rest, s, pos + |alts[k]|).Some?
    ensures var m := MatchFrom(rest, s, pos + |alts[k]|).value;
      TryAlts(dir, alts, rest, s, pos) == Some((m.0, [Capture(dir, s[pos..pos + |alts[k]|])] + m.1))
    decreases k
  {
    if k > 0 {
      assert !Fits(alts[0], s, pos);
      assert forall j :: 0 <= j < k - 1 ==> alts[1..][j] == alts[j + 1];
      TryFirstFitting(dir, alts[1..], rest, s, pos, k - 1);
    }
  }

  /** Which alternative of its group first fits a rendered field: one as long as the field. */
  function FittingAlternative(d: Date, dir: Directive): (k: nat)
    requires Valid(d)
    ensures k < |Alternatives(dir)|
  {
    match dir
    case Year4 => 0
    case Year2 => 0
    case Month => if d.month >= 10 then 0 else 1
    case Day => if d.day >= 30 then 0 else if d.day >= 10 then 1 else 2
  }

  lemma FieldFits(d: Date, dir: Directive, s: string, pos: nat)
    requires Valid(d)
    requires pos + |FieldText(d, dir)| <= |s|
    requires s[pos..pos + |FieldText(d, dir)|] == FieldText(d, dir)
    ensures var k := FittingAlternative(d, dir);
      && |Alternatives(dir)[k]| == |FieldText(d, dir)|
      && Fits(Alternatives(dir)[k], s, pos)
      && forall j :: 0 <= j < k ==> !Fits(Alternatives(dir)[j], s, pos)
  {
    match dir
    case Year4 => DigitsFit(dir, FieldText(d, dir), s, pos);
    case Year2 => DigitsFit(dir, FieldText(d, dir), s, pos);
    case Month => MonthFits(d.month, s, pos);
    case Day => DayFits(d.day, s, pos);
  }

  lemma MonthFits(m: int, s: string, pos: nat)
    requires 1 <= m <= 12 && pos + 2 <= |s| && s[pos..pos + 2] == FixedDigits(m, 2)
    ensures var alts := Alternatives(Month);
      && (m >= 10 ==> Fits(alts[0], s, pos))
      && (m < 10 ==> !Fits(alts[0], s, pos) && Fits(alts[1], s, pos))
  {
    TwoDigits(m);
    assert s[pos] == DigitChar(m / 10) && s[pos + 1] == DigitChar(m % 10);
    assert m < 10 ==> m / 10 == 0 && s[pos] == '0';
    assert m >= 10 ==> m / 10 == 1 && m % 10 <= 2;
    var alts := Alternatives(Month);
    var first, r0 := s[pos + 0], alts[0][0];
    assert r0 == Range('1', '1');
    assert m < 10 ==> !(r0.lo <= first <= r0.hi);
  }

  lemma DayFits(n: int, s: string, pos: nat)
    requires 1 <= n <= 31 && pos + 2 <= |s| && s[pos..pos + 2] == FixedDigits(n, 2)
    ensures var alts := Alternatives(Day);
      && (n >= 30 ==> Fits(alts[0], s, pos))
      && (10 <= n < 30 ==> !Fits(alts[0], s, pos) && Fits(alts[1], s, pos))
      && (n < 10 ==> !Fits(alts[0], s, pos) && !Fits(alts[1], s, pos) && Fits(alts[2], s, pos))
  {
    TwoDigits(n);
    assert s[pos] == DigitChar(n / 10) && s[pos + 1] == DigitChar(n % 10);
    assert n < 10 ==> n / 10 == 0 && s[pos] == '0';
    assert 10 <= n < 30 ==> 1 <= n / 10 <= 2 && '1' <= s[pos] <= '2';
    assert n >= 30 ==> n / 10 == 3 && n % 10 <= 1;
    var alts := Alternatives(Day);
    var first, r0, r1 := s[pos + 0], alts[0][0], alts[1][0];
    assert r0 == Range('3', '3') && r1 == Range('1', '2');
    assert n < 30 ==> !(r0.lo <= first <= r0.hi);
    assert n < 10 ==> !(r1.lo <= first <= r1.hi);
  }

  /** The group of a rendered field captures exactly that field. */
  lemma FieldFirstFit(d: Date, dir: Directive, rest: seq<Item>, s: string, pos: nat)
    requires Valid(d)
    requires pos + |FieldText(d, dir)| <= |s|
    requires s[pos..pos + |FieldText(d, dir)|] == FieldText(d, dir)
    requires MatchFrom(rest, s, pos + |FieldText(d, dir)|).Some?
    ensures var m := MatchFrom(rest, s, pos + |FieldText(d, dir)|).value;
      TryAlts(dir, Alternatives(dir), rest, s, pos)
        == Some((m.0, [Capture(dir, FieldText(d, dir))] + m.1))
  {
    FieldFits(d, dir, s, pos);
    TryFirstFitting(dir, Alternatives(dir), rest, s, pos, FittingAlternative(d, dir));
  }

  /** Matching a compiled format against its own rendering consumes all of it. */
  lemma {:induction false} MatchesRendered(d: Date, items: seq<Item>, s: string, pos: nat)
    requires Valid(d) && YearsFit(d, items)
    requires pos <= |s| && s[pos..] == Render(d, items)
    ensures MatchFrom(items, s, pos) == Some((|s|, Captures(d, items)))
    decreases |items|
  {
    if items != [] {
      var rest := items[1..];
      assert YearsFit(d, rest);
      match items[0]
      case Lit(c) => {
        assert s[pos] == c;
        assert s[pos + 1..] == s[pos..][1..];
        MatchesRendered(d, rest, s, pos + 1);
      }
      case Field(dir) => {
        var t := FieldText(d, dir);
        assert s[pos..pos + |t|] == s[pos..][..|t|];
        assert s[pos + |t|..] == s[pos..][|t|..];
        MatchesRendered(d, rest, s, pos + |t|);
        FieldFirstFit(d, dir, rest, s, pos);
      }
    }
  }

  /** `int()` of a rendered field gives back the field (the year modulo 100 for `%y`). */
  lemma FieldValueOfText(d: Date, dir: Directive)
    requires Valid(d)
    ensures FieldValue(FieldText(d, dir)) == FieldNumber(d, dir)
  {
    var t := FieldText(d, dir);
    assert IsDigit(t[0]);
  }

  /** The captured groups set exactly the fields the format names, each to the date's value. */
  lemma {:induction false} AssignRendered(d: Date, items: seq<Item>)
    requires Valid(d) && YearsFit(d, items)
    ensures var r := Assign(Captures(d, items));
      && r.year == (if Field(Year4) in items || Field(Year2) in items then d.year else 1900)
      && r.month == (if Field(Month) in items then d.month else 1)
      && r.day == (if Field(Day) in items then d.day else 1)
  {
    if items != [] {
      var rest := items[1..];
      assert YearsFit(d, rest);
      AssignRendered(d, rest);
      assert forall x :: x in items <==> x == items[0] || x in rest;
      if items[0].Field? {
        var dir := items[0].directive;
        assert Captures(d, items) == [Capture(dir, FieldText(d, dir))] + Captures(d, rest);
        AssignField(d, dir, Captures(d, rest));
      }
    }
  }

  /** One rendered field in front of the other groups sets that field to the date's value. */
  lemma AssignField(d: Date, dir: Directive, caps: seq<Capture>)
    requires Valid(d)
    requires dir == Year2 ==> 1969 <= d.year <= 2068
    ensures var r, r0 := Assign([Capture(dir, FieldText(d, dir))] + caps), Assign(caps);
      && r.year == (if dir == Year4 || dir == Year2 then d.year else r0.year)
      && r.month == (if dir == Month then d.month else r0.month)
      && r.day == (if dir == Day then d.day else r0.day)
  {
    var all := [Capture(dir, FieldText(d, dir))] + caps;
    assert all[1..] == caps;
    FieldValueOfText(d, dir);
  }

  /**
   * A format naming a year, a month and a day reads its own output back as the same date,
   * for every date under `%Y` and for the years 1969-2068 under `%y`.
   */
  lemma RenderParsesBack(d: Date, items: seq<Item>)
    requires Valid(d) && YearsFit(d, items)
    requires Field(Year4) in items || Field(Year2) in items
    requires Field(Month) in items && Field(Day) in items
    ensures ParseItems(Render(d, items), items) == Some(d)
  {
    var s := Render(d, items);
    MatchesRendered(d, items, s, 0);
    AssignRendered(d, items);
  }
}
