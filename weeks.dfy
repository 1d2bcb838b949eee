/**
 * The trend bucket key `${year}-W${Math.ceil(day / 7)}` of
 * backend/server.js: a week-of-the-month ordinal, not an ISO week.
 */
module Weeks {
  import opened Decimal
  import opened Records

  /** `Math.ceil(day / 7)` for a day of the month. */
  function WeekOfMonth(day: DayOfMonth): (w: int)
    ensures 7 * (w - 1) < day <= 7 * w
    ensures 1 <= w <= 5
  {
    (day + 6) / 7
  }

  function Label(year: int, week: nat): string
  {
    IntToString(year) + "-W" + NatToString(week)
  }

  /** The bucket key of an instant; it reads only the year and the day of the month. */
  function WeekKey(s: Stamp): string
  {
    Label(s.year, WeekOfMonth(s.day))
  }

  /**
   * A key is the year's rendering, then "-W", then one digit, the week
   * ordinal; reading the two numbers back gives the year and the ordinal.
   */
  lemma WeekKeyShape(s: Stamp)
    ensures var y, k := IntToString(s.year), WeekKey(s);
      && |k| == |y| + 3
      && k[..|y|] == y && k[|y|..|y| + 2] == "-W"
      && '1' <= k[|y| + 2] <= '5'
      && SignedValue(k[..|y|]) == s.year
      && DigitsValue(k[|y| + 2..]) == WeekOfMonth(s.day)
  {
    var y, w := IntToString(s.year), WeekOfMonth(s.day);
    var k := WeekKey(s);
    assert k == y + "-W" + [DigitChar(w)];
    assert k[..|y|] == y;
    assert k[|y| + 2..] == [DigitChar(w)];
    assert DigitsValue([DigitChar(w)]) == w by {
      assert [DigitChar(w)][..0] == [];
    }
    IntToStringValue(s.year);
  }

  /** In `s + "-W" + t`, where `s` holds no 'W', the first 'W' is the one after `s`. */
  lemma FirstW(s: string, t: string)
    requires forall k :: 0 <= k < |s| ==> s[k] != 'W'
    ensures (s + "-W" + t)[|s| + 1] == 'W'
    ensures forall k :: 0 <= k <= |s| ==> (s + "-W" + t)[k] != 'W'
  {
    var l := s + "-W" + t;
    forall k | 0 <= k <= |s| ensures l[k] != 'W' {
      if k < |s| { assert l[k] == s[k]; } else { assert l[k] == '-'; }
    }
  }

  /** A label determines its year and its week ordinal. */
  lemma LabelInjective(y1: int, w1: nat, y2: int, w2: nat)
    requires Label(y1, w1) == Label(y2, w2)
    ensures y1 == y2 && w1 == w2
  {
    var s1, s2 := IntToString(y1), IntToString(y2);
    var l := Label(y1, w1);
    FirstW(s1, NatToString(w1));
    FirstW(s2, NatToString(w2));
    assert |s1| == |s2|;
    assert s1 == l[..|s1|] == s2;
    assert NatToString(w1) == l[|s1| + 2..] == NatToString(w2);
    IntToStringInjective(y1, y2);
    NatToStringInjective(w1, w2);
  }

  /**
   * Two instants fall in the same bucket exactly when they have the same
   * year and the same week-of-month ordinal, whatever their months are.
   */
  lemma SameBucket(a: Stamp, b: Stamp)
    ensures WeekKey(a) == WeekKey(b) <==> (a.year == b.year && WeekOfMonth(a.day) == WeekOfMonth(b.day))
  {
    if WeekKey(a) == WeekKey(b) {
      LabelInjective(a.year, WeekOfMonth(a.day), b.year, WeekOfMonth(b.day));
    }
  }

  /** A merge on 2 May 2024 lands in bucket "2024-W1". */
  lemma SecondOfMayIsWeekOne(millis: int)
    ensures WeekKey(Stamp(millis, 2024, 2)) == "2024-W1"
  {
    assert NatToString(2) == "2";
    assert NatToString(20) == "20";
    assert NatToString(202) == "202";
    assert NatToString(2024) == "2024";
  }

  /**
   * Instant zero has key "1970-W1" on a server at or east of UTC, where it is
   * 1 January 1970, and "1969-W5" west of it, where it is 31 December 1969.
   */
  lemma NullDateKeys(east: NullDate, west: NullDate)
    requires east.year == 1970 && east.day == 1
    requires west.year == 1969 && west.day == 31
    ensures WeekKey(east) == "1970-W1"
    ensures WeekKey(west) == "1969-W5"
  {
    assert NatToString(1) == "1" && NatToString(5) == "5";
    assert NatToString(19) == "19" && NatToString(197) == "197";
    assert NatToString(1970) == "1970" && NatToString(196) == "196" && NatToString(1969) == "1969";
  }
}
