/**
 * The duration codec of `BotLogic`: `parse_time` turns a duration token into
 * whole seconds, `format_time` renders seconds as the largest whole unit.
 */
module Duration {
  import opened Wrappers
  import opened Text

  /** What `parse_time` returns for a "permanent" keyword: ten years in seconds. */
  const Forever: nat := 315360000

  /** From one year on, `format_time` prints the "forever" label. */
  const ForeverLabelFrom: nat := 31536000

  const ForeverLabel: string := "навсегда"

  /** The keywords `parse_time` maps to `Forever`, after lower-casing and trimming. */
  const PermanentKeywords: seq<string> := ["permanent", "навсегда", "perm", "forever"]

  /** One pattern of `parse_time`: digits, optional whitespace, then the unit's letter. */
  datatype Unit = Unit(marker: char, seconds: nat)

  /** The patterns in the order `parse_time` tries them. */
  const Units: seq<Unit> := [Unit('m', 60), Unit('h', 3600), Unit('d', 86400), Unit('w', 604800)]

  type Positive = n: nat | n > 0 witness 1

  /** One display unit of `format_time`. */
  datatype Period = Period(name: string, seconds: Positive)

  /** The periods in the order `format_time` tries them, largest first. */
  const Periods: seq<Period> := [Period("день", 86400), Period("час", 3600), Period("минут", 60)]

  /**
   * `re.match(r'(\d+)\s*<marker>(?:...)?', t)`: the match is anchored at the
   * start only, so whatever follows the marker letter is ignored.
   */
  function MatchUnit(t: string, unit: Unit): Option<nat>
  {
    var n := Span(t, IsDigit);
    if n == 0 then None
    else
      var rest := TrimLeft(t[n..]);
      if |rest| > 0 && rest[0] == unit.marker then Some(DigitsValue(t[..n]) * unit.seconds) else None
  }

  /** The first pattern of `units` that matches `t`, as the loop over `patterns` returns it. */
  function MatchFirst(t: string, units: seq<Unit>): Option<nat>
  {
    if units == [] then None
    else
      match MatchUnit(t, units[0])
      case Some(v) => Some(v)
      case None => MatchFirst(t, units[1..])
  }

  /** `parse_time`: `None` stands for Python's `None`. */
  function ParseTime(s: string): Option<nat>
  {
    var t := Strip(Lower(s));
    if t in PermanentKeywords then Some(Forever) else MatchFirst(t, Units)
  }

  /** `format_time` below the one-year label: the first period that fits. */
  function FormatPeriods(seconds: int, periods: seq<Period>): string
  {
    if periods == [] then IntToString(seconds) + " секунд"
    else if seconds >= periods[0].seconds then
      NatToString(seconds / periods[0].seconds) + " " + periods[0].name
    else FormatPeriods(seconds, periods[1..])
  }

  /** `format_time`. */
  function FormatTime(seconds: int): (r: string)
    ensures r == ForeverLabel <==> seconds >= ForeverLabelFrom
  {
    if seconds >= ForeverLabelFrom then ForeverLabel
    else
      var r := FormatPeriods(seconds, Periods);
      assert r[0] != ForeverLabel[0] by { FormatPeriodsStartsWithNumber(seconds, Periods); }
      r
  }

  lemma {:induction false} FormatPeriodsStartsWithNumber(seconds: int, periods: seq<Period>)
    ensures var r := FormatPeriods(seconds, periods); |r| > 0 && (IsDigit(r[0]) || r[0] == '-')
  {
    if periods != [] && seconds < periods[0].seconds {
      FormatPeriodsStartsWithNumber(seconds, periods[1..]);
    }
  }

  /**
   * `parse_time` lower-cases and trims its input: surrounding whitespace and
   * upper-case ASCII letters make no difference.
   */
  lemma ParseTimeIgnoresCaseAndPadding(s: string, w1: string, w2: string)
    requires AllSpace(w1) && AllSpace(w2)
    ensures ParseTime(w1 + s + w2) == ParseTime(s)
    ensures ParseTime(Lower(s)) == ParseTime(s)
  {
    LowerAppend(w1 + s, w2);
    LowerAppend(w1, s);
    assert Lower(w1) == w1 && Lower(w2) == w2;
    StripPadded(w1, Lower(s), w2);
    assert Lower(Lower(s)) == Lower(s);
  }

  /** Lower-casing first does not change the result: `parse_time` lower-cases anyway. */
  lemma ParseTimeIgnoresCase(s: string)
    ensures ParseTime(Lower(s)) == ParseTime(s)
  {
    assert Lower(Lower(s)) == Lower(s);
  }

  /** The prefix match of one pattern against digits, whitespace, a letter and anything after it. */
  lemma MatchUnitToken(ds: string, ws: string, c: char, rest: string, unit: Unit)
    requires IsDigits(ds) && AllSpace(ws) && !IsDigit(c) && !IsSpace(c)
    ensures MatchUnit(ds + ws + [c] + rest, unit)
         == if c == unit.marker then Some(DigitsValue(ds) * unit.seconds) else None
  {
    var t := ds + ws + [c] + rest;
    assert t == ds + (ws + [c] + rest);
    SpanDigits(ds, ws + [c] + rest);
    assert t[..|ds|] == ds;
    assert t[|ds|..] == ws + ([c] + rest);
    TrimLeftSpacePrefix(ws, [c] + rest);
  }

  /** Scanning the four patterns in order finds the one whose letter follows the digits. */
  lemma MatchFirstToken(ds: string, ws: string, unit: Unit, rest: string)
    requires unit in Units
    requires IsDigits(ds) && AllSpace(ws)
    ensures MatchFirst(ds + ws + [unit.marker] + rest, Units) == Some(DigitsValue(ds) * unit.seconds)
  {
    var t := ds + ws + [unit.marker] + rest;
    var v := Some(DigitsValue(ds) * unit.seconds);
    var u1, u2, u3 := Units[1..], Units[2..], Units[3..];
    assert u1[1..] == u2 && u2[1..] == u3 && u3[1..] == [];
    MatchUnitToken(ds, ws, unit.marker, rest, Units[0]);
    if unit == Units[0] {
      assert MatchFirst(t, Units) == v;
    } else {
      assert MatchFirst(t, Units) == MatchFirst(t, u1);
      MatchUnitToken(ds, ws, unit.marker, rest, Units[1]);
      if unit == Units[1] {
        assert MatchFirst(t, u1) == v;
      } else {
        assert MatchFirst(t, u1) == MatchFirst(t, u2);
        MatchUnitToken(ds, ws, unit.marker, rest, Units[2]);
        if unit == Units[2] {
          assert MatchFirst(t, u2) == v;
        } else {
          assert MatchFirst(t, u2) == MatchFirst(t, u3);
          MatchUnitToken(ds, ws, unit.marker, rest, Units[3]);
          assert MatchFirst(t, u3) == v;
        }
      }
    }
  }

  /** No keyword of the permanent list starts with a digit. */
  lemma DigitStartIsNoKeyword(t: string)
    requires |t| > 0 && IsDigit(t[0])
    ensures t !in PermanentKeywords
  {
    forall k | k in PermanentKeywords ensures t != k {
      assert !IsDigit(k[0]);
    }
  }

  /** A lower-case token without surrounding whitespace is left alone by the normalisation. */
  lemma NormalizedToken(t: string)
    requires forall i :: 0 <= i < |t| ==> !IsUpper(t[i])
    requires t == [] || (!IsSpace(t[0]) && !IsSpace(t[|t| - 1]))
    ensures Strip(Lower(t)) == t
  {
    assert Lower(t) == t;
    StripUnpadded(t);
  }

  /**
   * A token whose leading digit run n is followed, after optional whitespace,
   * by m, h, d or w parses to n times that unit; what follows the letter is
   * ignored, so "30minutes" is thirty minutes.
   */
  lemma ParseUnitToken(ds: string, ws: string, unit: Unit, rest: string)
    requires unit in Units
    requires IsDigits(ds) && AllSpace(ws)
    requires forall i :: 0 <= i < |rest| ==> !IsUpper(rest[i])
    requires rest == [] || !IsSpace(rest[|rest| - 1])
    ensures ParseTime(ds + ws + [unit.marker] + rest) == Some(DigitsValue(ds) * unit.seconds)
  {
    var t := ds + ws + [unit.marker] + rest;
    assert forall i :: 0 <= i < |t| ==> !IsUpper(t[i]) by {
      forall i | 0 <= i < |t| ensures !IsUpper(t[i]) {
        if i >= |ds| + |ws| + 1 {
          assert t[i] == rest[i - |ds| - |ws| - 1];
        }
      }
    }
    NormalizedToken(t);
    DigitStartIsNoKeyword(t);
    MatchFirstToken(ds, ws, unit, rest);
  }

  /** Scanning the four patterns finds none when the letter after the digits is no unit letter. */
  lemma MatchFirstNoUnit(ds: string, ws: string, c: char, rest: string)
    requires IsDigits(ds) && AllSpace(ws) && !IsDigit(c) && !IsSpace(c)
    requires c != 'm' && c != 'h' && c != 'd' && c != 'w'
    ensures MatchFirst(ds + ws + [c] + rest, Units) == None
  {
    var t := ds + ws + [c] + rest;
    var u1, u2, u3 := Units[1..], Units[2..], Units[3..];
    assert u1[1..] == u2 && u2[1..] == u3 && u3[1..] == [];
    MatchUnitToken(ds, ws, c, rest, Units[0]);
    MatchUnitToken(ds, ws, c, rest, Units[1]);
    MatchUnitToken(ds, ws, c, rest, Units[2]);
    MatchUnitToken(ds, ws, c, rest, Units[3]);
    assert MatchFirst(t, u3) == None;
    assert MatchFirst(t, u2) == None;
    assert MatchFirst(t, u1) == None;
  }

  /**
   * A digit run followed, after optional whitespace, by a letter that is not
   * m, h, d or w does not parse: "5s", "10sec" and "3y" all give None.
   */
  lemma ParseNonUnitToken(ds: string, ws: string, c: char, rest: string)
    requires IsDigits(ds) && AllSpace(ws) && !IsDigit(c) && !IsSpace(c) && !IsUpper(c)
    requires c != 'm' && c != 'h' && c != 'd' && c != 'w'
    requires forall i :: 0 <= i < |rest| ==> !IsUpper(rest[i])
    requires rest == [] || !IsSpace(rest[|rest| - 1])
    ensures ParseTime(ds + ws + [c] + rest) == None
  {
    var t := ds + ws + [c] + rest;
    assert forall i :: 0 <= i < |t| ==> !IsUpper(t[i]) by {
      forall i | 0 <= i < |t| ensures !IsUpper(t[i]) {
        if i >= |ds| + |ws| + 1 {
          assert t[i] == rest[i - |ds| - |ws| - 1];
        }
      }
    }
    NormalizedToken(t);
    DigitStartIsNoKeyword(t);
    MatchFirstNoUnit(ds, ws, c, rest);
  }

  /** When no pattern of `units` matches, the loop over them falls through to `None`. */
  lemma {:induction false} MatchFirstNone(t: string, units: seq<Unit>)
    requires forall i :: 0 <= i < |units| ==> MatchUnit(t, units[i]) == None
    ensures MatchFirst(t, units) == None
  {
    if units != [] {
      var tail := units[1..];
      assert forall i :: 0 <= i < |tail| ==> tail[i] == units[i + 1];
      MatchFirstNone(t, tail);
    }
  }

  /** Digits with nothing after them match no pattern: the unit letter is missing. */
  lemma MatchUnitBare(ds: string, u: Unit)
    requires IsDigits(ds)
    ensures MatchUnit(ds, u) == None
  {
    var empty: string := [];
    assert ds + empty == ds;
    SpanDigits(ds, empty);
    assert ds[|ds|..] == empty;
  }

  /** A bare number has no unit and does not parse. */
  lemma ParseBareNumber(ds: string)
    requires IsDigits(ds)
    ensures ParseTime(ds) == None
  {
    assert Lower(ds) == ds;
    StripUnpadded(ds);
    assert ds !in PermanentKeywords by { assert IsDigit(ds[0]); }
    forall i | 0 <= i < |Units| ensures MatchUnit(ds, Units[i]) == None {
      MatchUnitBare(ds, Units[i]);
    }
    MatchFirstNone(ds, Units);
  }

  /** A token that is not a keyword and does not start with a digit does not parse. */
  lemma ParseNonDigitStart(s: string)
    requires var t := Strip(Lower(s)); t !in PermanentKeywords && (t == [] || !IsDigit(t[0]))
    ensures ParseTime(s) == None
  {
    var t := Strip(Lower(s));
    assert Span(t, IsDigit) == 0;
    var u1, u2, u3 := Units[1..], Units[2..], Units[3..];
    assert u1[1..] == u2 && u2[1..] == u3 && u3[1..] == [];
    assert MatchFirst(t, Units) == MatchFirst(t, u1) == MatchFirst(t, u2) == MatchFirst(t, u3) == None;
  }

  /** The keywords need no normalisation. */
  lemma KeywordParses(k: string)
    requires k in PermanentKeywords
    ensures ParseTime(k) == Some(Forever)
  {
    assert forall i :: 0 <= i < |k| ==> !IsUpper(k[i]);
    NormalizedToken(k);
  }

  /** Every keyword of the permanent list parses to exactly ten years, which prints as the forever label. */
  lemma ParsePermanentKeywords()
    ensures ParseTime("permanent") == Some(Forever)
    ensures ParseTime("навсегда") == Some(Forever)
    ensures ParseTime("perm") == Some(Forever)
    ensures ParseTime("forever") == Some(Forever)
    ensures FormatTime(Forever) == ForeverLabel
  {
    KeywordParses(PermanentKeywords[0]);
    KeywordParses(PermanentKeywords[1]);
    KeywordParses(PermanentKeywords[2]);
    KeywordParses(PermanentKeywords[3]);
  }

  /**
   * The largest period that fits decides the text: truncated quotient and the
   * period's name.
   */
  lemma {:induction false} FormatPeriodsLargest(seconds: int, periods: seq<Period>, i: nat)
    requires i < |periods| && seconds >= periods[i].seconds
    requires forall j :: 0 <= j < i ==> seconds < periods[j].seconds
    ensures FormatPeriods(seconds, periods) == NatToString(seconds / periods[i].seconds) + " " + periods[i].name
  {
    if i > 0 {
      FormatPeriodsLargest(seconds, periods[1..], i - 1);
    }
  }

  /** Below the one-year label, `format_time` prints whole days, hours, minutes or seconds. */
  lemma FormatTimeBands(seconds: int)
    requires seconds < ForeverLabelFrom
    ensures 86400 <= seconds ==> FormatTime(seconds) == NatToString(seconds / 86400) + " день"
    ensures 3600 <= seconds < 86400 ==> FormatTime(seconds) == NatToString(seconds / 3600) + " час"
    ensures 60 <= seconds < 3600 ==> FormatTime(seconds) == NatToString(seconds / 60) + " минут"
    ensures seconds < 60 ==> FormatTime(seconds) == IntToString(seconds) + " секунд"
  {
    if 86400 <= seconds {
      FormatPeriodsLargest(seconds, Periods, 0);
    } else if 3600 <= seconds {
      FormatPeriodsLargest(seconds, Periods, 1);
    } else if 60 <= seconds {
      FormatPeriodsLargest(seconds, Periods, 2);
    } else {
      var p1, p2, p3 := Periods[1..], Periods[2..], Periods[3..];
      assert p1[1..] == p2 && p2[1..] == p3 && p3 == [];
      assert FormatPeriods(seconds, Periods) == FormatPeriods(seconds, p1)
          == FormatPeriods(seconds, p2) == FormatPeriods(seconds, p3);
    }
  }

  /** A number written out and followed by a unit letter parses to that many units. */
  lemma ParseWrittenToken(n: nat, unit: Unit)
    requires unit in Units
    ensures ParseTime(NatToString(n) + [unit.marker]) == Some(n * unit.seconds)
  {
    DigitsValueOfNatToString(n);
    assert NatToString(n) + [] + [unit.marker] + [] == NatToString(n) + [unit.marker];
    ParseUnitToken(NatToString(n), [], unit, []);
  }

  /**
   * Formatting a parsed "<n><unit>" token gives back n and the same unit,
   * as long as n units stay below the next larger period.
   */
  lemma FormatParsedToken(n: nat, unit: Unit, i: nat)
    requires unit in Units && i < |Periods| && Periods[i].seconds == unit.seconds
    requires 1 <= n && n * unit.seconds < ForeverLabelFrom
    requires forall j :: 0 <= j < i ==> n * unit.seconds < Periods[j].seconds
    ensures ParseTime(NatToString(n) + [unit.marker]) == Some(n * unit.seconds)
    ensures FormatTime(n * unit.seconds) == NatToString(n) + " " + Periods[i].name
  {
    ParseWrittenToken(n, unit);
    var v := n * unit.seconds;
    if i == 0 {
      assert v / 86400 == n;
    } else if i == 1 {
      assert v / 3600 == n;
    } else {
      assert v / 60 == n;
    }
    FormatPeriodsLargest(v, Periods, i);
  }

  /** Whole weeks below a year are printed as days. */
  lemma FormatWeeks(n: nat)
    requires 1 <= n <= 52
    ensures FormatTime(n * 604800) == NatToString(7 * n) + " день"
  {
    var v := n * 604800;
    assert v / 86400 == 7 * n;
    FormatPeriodsLargest(v, Periods, 0);
  }

  /** A token of whole weeks below a year parses to those weeks and prints as days. */
  lemma FormatParsedWeeks(n: nat)
    requires 1 <= n <= 52
    ensures ParseTime(NatToString(n) + "w") == Some(n * 604800)
    ensures FormatTime(n * 604800) == NatToString(7 * n) + " день"
  {
    ParseWrittenToken(n, Units[3]);
    assert [Units[3].marker] == "w";
    FormatWeeks(n);
  }

  lemma NinetyMinutesParse()
    ensures ParseTime("90m") == Some(5400)
  {
    assert NatToString(90) == "90";
    ParseWrittenToken(90, Units[0]);
    assert "90" + [Units[0].marker] == "90m";
  }

  lemma TwoHoursParse()
    ensures ParseTime("2h") == Some(7200)
  {
    assert NatToString(2) == "2";
    ParseWrittenToken(2, Units[1]);
    assert "2" + [Units[1].marker] == "2h";
  }

  lemma NinetyMinutesFormat()
    ensures FormatTime(5400) == "1 час"
  {
    FormatPeriodsLargest(5400, Periods, 1);
    assert NatToString(1) == "1";
  }

  lemma TwoHoursFormat()
    ensures FormatTime(7200) == "2 час"
  {
    FormatPeriodsLargest(7200, Periods, 1);
    assert NatToString(2) == "2";
  }

  /** Mixed units are truncated: ninety minutes are "1 час"; two hours are "2 час". */
  lemma FormatParsedExamples()
    ensures ParseTime("90m") == Some(5400) && FormatTime(5400) == "1 час"
    ensures ParseTime("2h") == Some(7200) && FormatTime(7200) == "2 час"
  {
    NinetyMinutesParse();
    NinetyMinutesFormat();
    TwoHoursParse();
    TwoHoursFormat();
  }

  /** Upper-case letters make no difference: `parse_time("2H") == parse_time("2h")`. */
  lemma TwoHoursAnyCase()
    ensures ParseTime("2H") == ParseTime("2h") == Some(7200)
  {
    var lowered := Lower("2H");
    assert lowered == "2h" by {
      assert |lowered| == 2 && lowered[0] == '2' && lowered[1] == 'h';
    }
    ParseTimeIgnoresCase("2H");
    TwoHoursParse();
  }

  /** The match is a prefix match: "30minutes" is thirty minutes. */
  lemma ThirtyMinutes()
    ensures ParseTime("30minutes") == Some(1800)
  {
    assert NatToString(30) == "30";
    DigitsValueOfNatToString(30);
    assert "30" + [] + ['m'] + "inutes" == "30minutes";
    ParseUnitToken("30", [], Units[0], "inutes");
  }
}
