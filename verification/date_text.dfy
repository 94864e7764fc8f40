/**
 * Date strings as `datetime.strptime` reads them with `%d/%m/%Y` (or
 * `%m/%d/%Y`) and as `strftime` writes them with the same directives.
 *
 * Reading: the first two fields are one or two ASCII digits each, each
 * followed by '/', the year is exactly four digits, nothing may follow, and
 * the numbers must form a valid date. Writing: day and month are zero-padded
 * to two digits, the year to four.
 */
module DateText {
  import opened Wrappers
  import opened Calendar

  predicate IsDigit(c: char) {
    '0' <= c <= '9'
  }

  function DigitValue(c: char): (v: nat)
    requires IsDigit(c)
    ensures v <= 9
  {
    c as int - '0' as int
  }

  function DigitChar(v: nat): (c: char)
    requires v <= 9
    ensures IsDigit(c) && DigitValue(c) == v
  {
    ('0' as int + v) as char
  }

  lemma DigitCharOfValue(c: char)
    requires IsDigit(c)
    ensures DigitChar(DigitValue(c)) == c
  {
  }

  /** A day or month field (one or two digits) followed by '/': its value and the text after the '/'. */
  function SlashField(s: string): Option<(nat, string)>
  {
    if |s| >= 2 && IsDigit(s[0]) && s[1] == '/' then
      Some((DigitValue(s[0]), s[2..]))
    else if |s| >= 3 && IsDigit(s[0]) && IsDigit(s[1]) && s[2] == '/' then
      Some((10 * DigitValue(s[0]) + DigitValue(s[1]), s[3..]))
    else
      None
  }

  /** A `%Y` field that ends the text: exactly four digits. */
  function YearField(s: string): Option<nat>
  {
    if |s| == 4 && IsDigit(s[0]) && IsDigit(s[1]) && IsDigit(s[2]) && IsDigit(s[3]) then
      Some(100 * (10 * DigitValue(s[0]) + DigitValue(s[1])) + (10 * DigitValue(s[2]) + DigitValue(s[3])))
    else
      None
  }

  /** The three numbers of a text shaped `A/B/YYYY`, in the order they appear. */
  function SplitFields(s: string): Option<(nat, nat, nat)>
  {
    match SlashField(s)
    case None => None
    case Some((a, rest)) =>
      match SlashField(rest)
      case None => None
      case Some((b, tail)) =>
        match YearField(tail)
        case None => None
        case Some(y) => Some((a, b, y))
  }

  /** `strptime(s, "%d/%m/%Y")`: None where Python raises ValueError. */
  function ParseDMY(s: string): (r: Option<Date>)
    ensures r.Some? ==> ValidDate(r.value)
  {
    match SplitFields(s)
    case None => None
    case Some((d, m, y)) => if ValidDate(Date(y, m, d)) then Some(Date(y, m, d)) else None
  }

  /** `strptime(s, "%m/%d/%Y")`: the backend's reading of a date string. */
  function ParseMDY(s: string): (r: Option<Date>)
    ensures r.Some? ==> ValidDate(r.value)
  {
    match SplitFields(s)
    case None => None
    case Some((m, d, y)) => if ValidDate(Date(y, m, d)) then Some(Date(y, m, d)) else None
  }

  function Pad2(n: nat): (s: string)
    requires n <= 99
  {
    [DigitChar(n / 10), DigitChar(n % 10)]
  }

  function Pad4(n: nat): (s: string)
    requires n <= 9999
  {
    Pad2(n / 100) + Pad2(n % 100)
  }

  /** Three zero-padded fields `AA/BB/YYYY`. */
  function Join(a: nat, b: nat, y: nat): (s: string)
    requires a <= 99 && b <= 99 && y <= 9999
    ensures |s| == 10 && s[2] == '/' && s[5] == '/'
  {
    Pad2(a) + "/" + Pad2(b) + "/" + Pad4(y)
  }

  /** `strftime("%d/%m/%Y")`. */
  function FormatDMY(d: Date): (s: string)
    requires ValidDate(d)
  {
    Join(d.day, d.month, d.year)
  }

  /** `strftime("%m/%d/%Y")`. */
  function FormatMDY(d: Date): (s: string)
    requires ValidDate(d)
  {
    Join(d.month, d.day, d.year)
  }

  /** Zero-padded fields are read back as the numbers that were written. */
  lemma SplitJoin(a: nat, b: nat, y: nat)
    requires a <= 99 && b <= 99 && y <= 9999
    ensures SplitFields(Join(a, b, y)) == Some((a, b, y))
  {
    var s := Join(a, b, y);
    assert s[..2] == Pad2(a);
    assert s[3..] == Pad2(b) + "/" + Pad4(y);
    assert SlashField(s) == Some((a, s[3..]));
    assert s[3..][3..] == Pad4(y);
    assert SlashField(s[3..]) == Some((b, Pad4(y)));
  }

  /** A written date is read back as the same date. */
  lemma ParseFormatDMY(d: Date)
    requires ValidDate(d)
    ensures ParseDMY(FormatDMY(d)) == Some(d)
  {
    SplitJoin(d.day, d.month, d.year);
  }

  /** A date written month first is read back, month first, as the same date. */
  lemma ParseFormatMDY(d: Date)
    requires ValidDate(d)
    ensures ParseMDY(FormatMDY(d)) == Some(d)
  {
    SplitJoin(d.month, d.day, d.year);
  }

  /** Two digits are the zero-padded writing of the number they spell. */
  lemma Pad2OfDigits(c0: char, c1: char)
    requires IsDigit(c0) && IsDigit(c1)
    ensures Pad2(10 * DigitValue(c0) + DigitValue(c1)) == [c0, c1]
  {
    DigitCharOfValue(c0);
    DigitCharOfValue(c1);
  }

  /** Four digits are the zero-padded writing of the number they spell. */
  lemma Pad4OfDigits(t: string)
    requires |t| == 4 && YearField(t).Some?
    ensures YearField(t).value <= 9999 && Pad4(YearField(t).value) == t
  {
    var hi, lo := 10 * DigitValue(t[0]) + DigitValue(t[1]), 10 * DigitValue(t[2]) + DigitValue(t[3]);
    assert (100 * hi + lo) / 100 == hi && (100 * hi + lo) % 100 == lo;
    Pad2OfDigits(t[0], t[1]);
    Pad2OfDigits(t[2], t[3]);
  }

  /** A field read from a text leaves either all but two or all but three of its characters. */
  lemma SlashFieldShape(s: string)
    requires SlashField(s).Some?
    ensures |SlashField(s).value.1| == |s| - 2 || |SlashField(s).value.1| == |s| - 3
    ensures |SlashField(s).value.1| == |s| - 3 ==>
      IsDigit(s[0]) && IsDigit(s[1]) && s[2] == '/' && SlashField(s).value.1 == s[3..]
      && SlashField(s).value.0 == 10 * DigitValue(s[0]) + DigitValue(s[1])
  {
  }

  /** A ten-character text that splits into fields is the zero-padded join of those fields. */
  lemma JoinSplit(s: string)
    requires |s| == 10 && SplitFields(s).Some?
    ensures SplitFields(s).value.0 <= 99 && SplitFields(s).value.1 <= 99 && SplitFields(s).value.2 <= 9999
    ensures Join(SplitFields(s).value.0, SplitFields(s).value.1, SplitFields(s).value.2) == s
  {
    var (a, rest) := SlashField(s).value;
    var (b, tail) := SlashField(rest).value;
    SlashFieldShape(s);
    SlashFieldShape(rest);
    assert |tail| == 4;
    Pad2OfDigits(s[0], s[1]);
    Pad2OfDigits(rest[0], rest[1]);
    Pad4OfDigits(tail);
    assert s == [s[0], s[1]] + "/" + [rest[0], rest[1]] + "/" + tail;
  }

  /** The ways `%d` or `%m` accepts a number: two digits, or one digit when it is below 10. */
  function FieldTexts(n: nat): (ts: set<string>)
    requires n <= 99
  {
    if n < 10 then {Pad2(n), [DigitChar(n)]} else {Pad2(n)}
  }

  /** Every text `A/B/YYYY` whose first two fields spell `a` and `b` and whose year spells `y`. */
  function Spellings(a: nat, b: nat, y: nat): (ts: set<string>)
    requires a <= 99 && b <= 99 && y <= 9999
  {
    set ta, tb | ta in FieldTexts(a) && tb in FieldTexts(b) :: ta + "/" + tb + "/" + Pad4(y)
  }

  /** The texts `%d/%m/%Y` reads as date `d`: day and month each with or without a leading zero. */
  function Writings(d: Date): (ts: set<string>)
    requires ValidDate(d)
  {
    Spellings(d.day, d.month, d.year)
  }

  /** A spelling of `n` followed by '/' is read as `n`, leaving what follows the '/'. */
  lemma SlashFieldOfText(n: nat, t: string, rest: string)
    requires n <= 99 && t in FieldTexts(n)
    ensures SlashField(t + "/" + rest) == Some((n, rest))
  {
    var s := t + "/" + rest;
    if t == Pad2(n) {
      assert s[3..] == rest;
    } else {
      assert s[2..] == rest;
    }
  }

  /** Four digits spell the year they are read as. */
  lemma YearFieldOfPad4(y: nat)
    requires y <= 9999
    ensures YearField(Pad4(y)) == Some(y)
  {
  }

  /** A field read from a text is one of the spellings of its value. */
  lemma SlashFieldText(s: string)
    requires SlashField(s).Some?
    ensures var (n, rest) := SlashField(s).value;
      n <= 99 && exists t :: t in FieldTexts(n) && s == t + "/" + rest
  {
    var (n, rest) := SlashField(s).value;
    if |rest| == |s| - 3 && s[2] == '/' && IsDigit(s[0]) && IsDigit(s[1]) && s[1] != '/' {
      Pad2OfDigits(s[0], s[1]);
      assert s == [s[0], s[1]] + "/" + rest;
    } else {
      DigitCharOfValue(s[0]);
      assert s == [s[0]] + "/" + rest;
    }
  }

  /** What splitting reads is one of the spellings of the three numbers. */
  lemma SplitFieldsIsSpelling(s: string, a: nat, b: nat, y: nat)
    requires SplitFields(s) == Some((a, b, y))
    ensures a <= 99 && b <= 99 && y <= 9999 && s in Spellings(a, b, y)
  {
    var rest := SlashField(s).value.1;
    var tail := SlashField(rest).value.1;
    SlashFieldText(s);
    SlashFieldText(rest);
    var ta :| ta in FieldTexts(a) && s == ta + "/" + rest;
    var tb :| tb in FieldTexts(b) && rest == tb + "/" + tail;
    Pad4OfDigits(tail);
    assert s == ta + "/" + tb + "/" + Pad4(y);
  }

  /** Every spelling of three numbers is read as those numbers. */
  lemma SpellingSplits(s: string, a: nat, b: nat, y: nat)
    requires a <= 99 && b <= 99 && y <= 9999 && s in Spellings(a, b, y)
    ensures SplitFields(s) == Some((a, b, y))
  {
    var ta, tb :| ta in FieldTexts(a) && tb in FieldTexts(b) && s == ta + "/" + tb + "/" + Pad4(y);
    var rest := tb + "/" + Pad4(y);
    assert s == ta + "/" + rest;
    SlashFieldOfText(a, ta, rest);
    SlashFieldOfText(b, tb, Pad4(y));
    YearFieldOfPad4(y);
  }

  /** Splitting reads exactly the spellings of the three numbers, and nothing else. */
  lemma SplitFieldsSpellings(s: string, a: nat, b: nat, y: nat)
    ensures SplitFields(s) == Some((a, b, y)) <==> a <= 99 && b <= 99 && y <= 9999 && s in Spellings(a, b, y)
  {
    if SplitFields(s) == Some((a, b, y)) {
      SplitFieldsIsSpelling(s, a, b, y);
    }
    if a <= 99 && b <= 99 && y <= 9999 && s in Spellings(a, b, y) {
      SpellingSplits(s, a, b, y);
    }
  }

  /** `%d/%m/%Y` reads `s` as `d` exactly when `d` is a valid date and `s` is one of its writings. */
  lemma ParseDMYWritings(s: string, d: Date)
    ensures ParseDMY(s) == Some(d) <==> ValidDate(d) && s in Writings(d)
  {
    if ValidDate(d) {
      SplitFieldsSpellings(s, d.day, d.month, d.year);
    }
  }

  /** `%m/%d/%Y` reads `s` as `d` exactly when `d` is valid and `s` spells month, day and year in that order. */
  lemma ParseMDYSpellings(s: string, d: Date)
    ensures ParseMDY(s) == Some(d) <==> ValidDate(d) && s in Spellings(d.month, d.day, d.year)
  {
    if ValidDate(d) {
      SplitFieldsSpellings(s, d.month, d.day, d.year);
    }
  }

  /** One-digit day and month are read as well: 5/8/2025 is 5 August 2025. */
  lemma ParseOneDigitFields()
    ensures ParseDMY("5/8/2025") == Some(Date(2025, 8, 5))
  {
    assert [DigitChar(5)] + "/" + [DigitChar(8)] + "/" + Pad4(2025) == "5/8/2025";
    ParseDMYWritings("5/8/2025", Date(2025, 8, 5));
  }

  /** A zero-padded `DD/MM/YYYY` text that parses is exactly what writing its date gives back. */
  lemma FormatParseDMY(s: string)
    requires |s| == 10 && ParseDMY(s).Some?
    ensures FormatDMY(ParseDMY(s).value) == s
  {
    JoinSplit(s);
  }
}
