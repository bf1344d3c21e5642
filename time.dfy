/** Calendar instants and the three text forms the handlers produce from
    them: strftime('%Y%m%d%H%M%S') for complaint ids, SQLite's DATE('now')
    and CURRENT_TIMESTAMP for stored dates and timestamps. */
module Time {
  import opened Wrappers
  import opened Decimal

  predicate IsLeapYear(y: nat) {
    (y % 4 == 0 && y % 100 != 0) || y % 400 == 0
  }

  function DaysInMonth(y: nat, m: nat): nat {
    if m == 2 then (if IsLeapYear(y) then 29 else 28)
    else if m == 4 || m == 6 || m == 9 || m == 11 then 30
    else 31
  }

  /** A wall-clock instant to the second, in the ranges Python's datetime allows. */
  datatype DateTime = DateTime(year: nat, month: nat, day: nat, hour: nat, minute: nat, second: nat)
  {
    predicate Valid() {
      && 1 <= year <= 9999
      && 1 <= month <= 12
      && 1 <= day <= DaysInMonth(year, month)
      && hour < 24 && minute < 60 && second < 60
    }
  }

  /** What a request reads from its environment: datetime.now() (local time),
      the database's 'now' (UTC, used by CURRENT_TIMESTAMP and DATE('now')),
      and the POSIX seconds the token library compares expiries with. */
  datatype Clock = Clock(local: DateTime, utc: DateTime, epoch: int)
  {
    predicate Valid() {
      local.Valid() && utc.Valid()
    }
  }

  /** strftime('%Y%m%d%H%M%S'): fourteen digits. */
  function Compact(t: DateTime): string {
    ZeroPad(t.year, 4) + (ZeroPad(t.month, 2) + (ZeroPad(t.day, 2)
      + (ZeroPad(t.hour, 2) + (ZeroPad(t.minute, 2) + ZeroPad(t.second, 2)))))
  }

  /** Reads a fourteen-digit YYYYMMDDHHMMSS string back into its fields. */
  function ParseCompact(s: string): Option<DateTime> {
    if |s| == 14 && AllDigits(s) then
      Some(DateTime(ValueOf(s[0..4]), ValueOf(s[4..6]), ValueOf(s[6..8]),
                    ValueOf(s[8..10]), ValueOf(s[10..12]), ValueOf(s[12..14])))
    else None
  }

  lemma FieldWidths(t: DateTime)
    requires t.Valid()
    ensures |ZeroPad(t.year, 4)| == 4 && |ZeroPad(t.month, 2)| == 2 && |ZeroPad(t.day, 2)| == 2
    ensures |ZeroPad(t.hour, 2)| == 2 && |ZeroPad(t.minute, 2)| == 2 && |ZeroPad(t.second, 2)| == 2
  {
    assert Pow10(2) == 100 && Pow10(4) == 10000;
    ZeroPadWidth(t.year, 4);
    ZeroPadWidth(t.month, 2);
    ZeroPadWidth(t.day, 2);
    ZeroPadWidth(t.hour, 2);
    ZeroPadWidth(t.minute, 2);
    ZeroPadWidth(t.second, 2);
  }

  /** A concatenation splits back into its parts. */
  lemma Split(a: string, b: string)
    ensures (a + b)[..|a|] == a && (a + b)[|a|..] == b
  {
  }

  /** Digit fields of widths 4, 2, 2, 2, 2, 2 written side by side are
      read back by ParseCompact. */
  lemma ParseFields(y: string, mo: string, d: string, h: string, mi: string, se: string, t: DateTime)
    requires |y| == 4 && |mo| == 2 && |d| == 2 && |h| == 2 && |mi| == 2 && |se| == 2
    requires AllDigits(y) && AllDigits(mo) && AllDigits(d) && AllDigits(h) && AllDigits(mi) && AllDigits(se)
    requires ValueOf(y) == t.year && ValueOf(mo) == t.month && ValueOf(d) == t.day
    requires ValueOf(h) == t.hour && ValueOf(mi) == t.minute && ValueOf(se) == t.second
    ensures var s := y + (mo + (d + (h + (mi + se))));
            |s| == 14 && AllDigits(s) && ParseCompact(s) == Some(t)
  {
    var r4 := mi + se;
    var r3 := h + r4;
    var r2 := d + r3;
    var r1 := mo + r2;
    var s := y + r1;
    Split(y, r1);
    Split(mo, r2);
    Split(d, r3);
    Split(h, r4);
    Split(mi, se);
    assert s[4..6] == r1[..2];
    assert s[6..8] == r2[..2];
    assert s[8..10] == r3[..2];
    assert s[10..12] == r4[..2];
    assert s[12..14] == se;
  }

  /** The compact stamp of a valid instant is fourteen digits and reads back
      to the same instant; so two instants share a stamp only when they fall
      in the same second. */
  lemma CompactRoundTrip(t: DateTime)
    requires t.Valid()
    ensures |Compact(t)| == 14 && AllDigits(Compact(t))
    ensures ParseCompact(Compact(t)) == Some(t)
  {
    FieldWidths(t);
    ValueOfZeroPad(t.year, 4);
    ValueOfZeroPad(t.month, 2);
    ValueOfZeroPad(t.day, 2);
    ValueOfZeroPad(t.hour, 2);
    ValueOfZeroPad(t.minute, 2);
    ValueOfZeroPad(t.second, 2);
    ParseFields(ZeroPad(t.year, 4), ZeroPad(t.month, 2), ZeroPad(t.day, 2),
                ZeroPad(t.hour, 2), ZeroPad(t.minute, 2), ZeroPad(t.second, 2), t);
  }

  lemma CompactInjective(a: DateTime, b: DateTime)
    requires a.Valid() && b.Valid() && Compact(a) == Compact(b)
    ensures a == b
  {
    CompactRoundTrip(a);
    CompactRoundTrip(b);
  }

  /** DATE('now'): YYYY-MM-DD. */
  function DateText(t: DateTime): string {
    ZeroPad(t.year, 4) + "-" + ZeroPad(t.month, 2) + "-" + ZeroPad(t.day, 2)
  }

  /** CURRENT_TIMESTAMP: YYYY-MM-DD HH:MM:SS. */
  function TimestampText(t: DateTime): string {
    DateText(t) + " " + ZeroPad(t.hour, 2) + ":" + ZeroPad(t.minute, 2) + ":" + ZeroPad(t.second, 2)
  }

  /** Three fields of widths 4, 2 and 2 joined by one separator each sit
      at fixed offsets. */
  lemma JoinFields(a: string, sep: char, b: string, c: string)
    requires |a| == 4 && |b| == 2 && |c| == 2
    ensures var s := a + [sep] + b + [sep] + c;
            && |s| == 10 && s[..4] == a && s[4] == sep && s[5..7] == b && s[7] == sep && s[8..] == c
  {
    var s := a + [sep] + b + [sep] + c;
    assert s[..4] == a;
    assert s[5..7] == b;
    assert s[8..] == c;
  }

  /** DATE('now') of a valid date has the form YYYY-MM-DD, and its three
      fields give back the year, month and day. */
  lemma DateTextFields(t: DateTime)
    requires t.Valid()
    ensures var s := DateText(t);
            && |s| == 10 && s[4] == '-' && s[7] == '-'
            && AllDigits(s[..4]) && AllDigits(s[5..7]) && AllDigits(s[8..])
            && ValueOf(s[..4]) == t.year && ValueOf(s[5..7]) == t.month && ValueOf(s[8..]) == t.day
  {
    FieldWidths(t);
    ValueOfZeroPad(t.year, 4);
    ValueOfZeroPad(t.month, 2);
    ValueOfZeroPad(t.day, 2);
    JoinFields(ZeroPad(t.year, 4), '-', ZeroPad(t.month, 2), ZeroPad(t.day, 2));
  }

  /** A ten-character date, a space and three two-character fields joined
      by colons sit at fixed offsets. */
  lemma JoinTime(d: string, h: string, mi: string, se: string)
    requires |d| == 10 && |h| == 2 && |mi| == 2 && |se| == 2
    ensures var s := d + " " + h + ":" + mi + ":" + se;
            && |s| == 19 && s[..10] == d && s[10] == ' ' && s[11..13] == h
            && s[13] == ':' && s[14..16] == mi && s[16] == ':' && s[17..] == se
  {
    var s := d + " " + h + ":" + mi + ":" + se;
    assert s[..10] == d;
    assert s[11..13] == h;
    assert s[14..16] == mi;
    assert s[17..] == se;
  }

  /** CURRENT_TIMESTAMP of a valid instant has the form
      YYYY-MM-DD HH:MM:SS: the date text, a space, and three
      colon-separated fields that give back the hour, minute and second. */
  lemma TimestampTextFields(t: DateTime)
    requires t.Valid()
    ensures var s := TimestampText(t);
            && |s| == 19 && s[..10] == DateText(t) && s[10] == ' ' && s[13] == ':' && s[16] == ':'
            && AllDigits(s[11..13]) && AllDigits(s[14..16]) && AllDigits(s[17..])
            && ValueOf(s[11..13]) == t.hour && ValueOf(s[14..16]) == t.minute && ValueOf(s[17..]) == t.second
  {
    FieldWidths(t);
    DateTextFields(t);
    ValueOfZeroPad(t.hour, 2);
    ValueOfZeroPad(t.minute, 2);
    ValueOfZeroPad(t.second, 2);
    JoinTime(DateText(t), ZeroPad(t.hour, 2), ZeroPad(t.minute, 2), ZeroPad(t.second, 2));
  }
}
