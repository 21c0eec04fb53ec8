/**
 * The part of CPython's `datetime.strptime` the date handlers use: the format is compiled to
 * the regular expression `_strptime` builds (`%Y` = `\d\d\d\d`, `%y` = `\d\d`,
 * `%m` = `1[0-2]|0[1-9]|[1-9]`, `%d` = `3[01]|[12]\d|0[1-9]|[1-9]| [1-9]`, other characters
 * literal), matched at the start of the string with the first alternative that lets the rest
 * match, then rejected if characters remain or the fields do not make a real date.
 */
module DateParsing {
  import opened Wrappers
  import opened Decimals
  import opened Dates

  datatype Directive = Year4 | Year2 | Month | Day

  /** A compiled format: directives and literal characters. */
  datatype Item = Field(directive: Directive) | Lit(c: char)

  /** The directive a `%` letter names, if it is one of the four modelled. */
  function DirectiveFor(c: char): Option<Directive> {
    if c == 'Y' then Some(Year4)
    else if c == 'y' then Some(Year2)
    else if c == 'm' then Some(Month)
    else if c == 'd' then Some(Day)
    else None
  }

  /**
   * The format as items; `None` for a directive outside the four (`strptime` raises `ValueError`
   * for those, or for a trailing `%`, and the date handlers treat that as no match).
   */
  function Compile(fmt: string): (r: Option<seq<Item>>)
    ensures r.Some? ==> |r.value| <= |fmt|
  {
    if fmt == [] then Some([])
    else if fmt[0] == '%' then
      if |fmt| < 2 || DirectiveFor(fmt[1]).None? then None
      else match Compile(fmt[2..])
        case Some(rest) => Some([Field(DirectiveFor(fmt[1]).value)] + rest)
        case None => None
    else match Compile(fmt[1..])
      case Some(rest) => Some([Lit(fmt[0])] + rest)
      case None => None
  }

  /** One position of a regex alternative: the character class `[lo-hi]`. */
  datatype Range = Range(lo: char, hi: char)

  const AnyDigit: Range := Range('0', '9')

  function One(c: char): Range { Range(c, c) }

  /** The alternatives of a directive's group, in the order the regex tries them. */
  function Alternatives(d: Directive): seq<seq<Range>> {
    match d
    case Year4 => [[AnyDigit, AnyDigit, AnyDigit, AnyDigit]]
    case Year2 => [[AnyDigit, AnyDigit]]
    case Month => [[One('1'), Range('0', '2')], [One('0'), Range('1', '9')], [Range('1', '9')]]
    case Day =>
      [[One('3'), Range('0', '1')], [Range('1', '2'), AnyDigit], [One('0'), Range('1', '9')],
       [Range('1', '9')], [One(' '), Range('1', '9')]]
  }

  /** The alternative matches the characters of `s` starting at `pos`. */
  predicate Fits(alt: seq<Range>, s: string, pos: nat) {
    pos + |alt| <= |s| && forall i :: 0 <= i < |alt| ==> alt[i].lo <= s[pos + i] <= alt[i].hi
  }

  /** The text a directive's group captured. */
  datatype Capture = Capture(directive: Directive, text: string)

  /**
   * `re.match` of the compiled items at `pos`: where the match ends and the groups it captured,
   * taking alternatives in order and backtracking into the next one when the rest fails.
   */
  function MatchFrom(items: seq<Item>, s: string, pos: nat): (r: Option<(nat, seq<Capture>)>)
    requires pos <= |s|
    ensures r.Some? ==> pos <= r.value.0 <= |s|
    decreases |items|, 1
  {
    if items == [] then Some((pos, []))
    else match items[0]
      case Lit(c) => if pos < |s| && s[pos] == c then MatchFrom(items[1..], s, pos + 1) else None
      case Field(d) => TryAlts(d, Alternatives(d), items[1..], s, pos)
  }

  function TryAlts(d: Directive, alts: seq<seq<Range>>, rest: seq<Item>, s: string, pos: nat)
    : (r: Option<(nat, seq<Capture>)>)
    requires pos <= |s|
    ensures r.Some? ==> pos <= r.value.0 <= |s|
    decreases |rest| + 1, 0, |alts|
  {
    if alts == [] then None
    else if Fits(alts[0], s, pos) then
      var next := pos + |alts[0]|;
      match MatchFrom(rest, s, next)
      case Some((end, caps)) => Some((end, [Capture(d, s[pos..next])] + caps))
      case None => TryAlts(d, alts[1..], rest, s, pos)
    else TryAlts(d, alts[1..], rest, s, pos)
  }

  /** `int()` of a captured group; the leading blank of the ` [1-9]` day form is ignored. */
  function FieldValue(text: string): nat {
    if |text| > 0 && text[0] == ' ' then DigitsToNat(text[1..]) else DigitsToNat(text)
  }

  /** `%y`: 69-99 are years of the 1900s, 00-68 years of the 2000s. */
  function CenturyYear(yy: nat): nat {
    if yy <= 68 then yy + 2000 else yy + 1900
  }

  /** The fields the groups set, over the defaults year 1900, January, day 1. */
  function Assign(caps: seq<Capture>): Date {
    if caps == [] then Date(1900, 1, 1)
    else
      var d := Assign(caps[1..]);
      var v := FieldValue(caps[0].text);
      match caps[0].directive
      case Year4 => d.(year := v)
      case Year2 => d.(year := CenturyYear(v))
      case Month => d.(month := v)
      case Day => d.(day := v)
  }

  /** `strptime` with compiled items: match, no unconverted data, and a real date. */
  function ParseItems(s: string, items: seq<Item>): (r: Option<Date>)
    ensures r.Some? ==> Valid(r.value)
  {
    match MatchFrom(items, s, 0)
    case Some((end, caps)) =>
      if end == |s| && Valid(Assign(caps)) then Some(Assign(caps)) else None
    case None => None
  }

  /** `datetime.strptime(s, fmt).date()`, or `None` where it raises `ValueError`. */
  function Strptime(s: string, fmt: string): (r: Option<Date>)
    ensures r.Some? ==> Valid(r.value)
  {
    match Compile(fmt)
    case Some(items) => ParseItems(s, items)
    case None => None
  }

  /** Every alternative of every directive needs at least one character. */
  lemma {:induction false} NothingFitsAtEnd(d: Directive, alts: seq<seq<Range>>, rest: seq<Item>, s: string)
    requires forall i :: 0 <= i < |alts| ==> |alts[i]| >= 1
    ensures TryAlts(d, alts, rest, s, |s|).None?
    decreases |alts|
  {
    if alts != [] {
      NothingFitsAtEnd(d, alts[1..], rest, s);
    }
  }

  /** A format that starts with a directive never matches the empty string. */
  lemma EmptyNeverParses(items: seq<Item>)
    requires |items| > 0 && items[0].Field?
    ensures ParseItems("", items).None?
  {
    NothingFitsAtEnd(items[0].directive, Alternatives(items[0].directive), items[1..], "");
  }
}
