/** The page cursor as text (`crates/api/src/handlers.rs`): a printed timestamp, `~`, a document id.

    `uuid` stands for the textual form of document ids and its parser. */
module Cursor {
  import opened Text
  import opened Listing

  // ---------------------------------------------------------------- decimal digits

  predicate IsDigit(c: char) {
    '0' <= c <= '9'
  }

  predicate AllDigits(s: string) {
    forall i :: 0 <= i < |s| ==> IsDigit(s[i])
  }

  function Value(c: char): nat
    requires IsDigit(c)
  {
    (c - '0') as nat
  }

  function Digit(n: nat): (c: char)
    requires n < 10
    ensures IsDigit(c) && Value(c) == n
  {
    '0' + n as char
  }

  function Num(s: string): nat
    requires AllDigits(s)
  {
    if s == "" then 0 else Num(s[..|s| - 1]) * 10 + Value(s[|s| - 1])
  }

  /** `n` in `width` digits, with leading zeros. */
  function Pad(n: nat, width: nat): (s: string)
    ensures |s| == width && AllDigits(s)
  {
    if width == 0 then "" else Pad(n / 10, width - 1) + [Digit(n % 10)]
  }

  function PowerOfTen(k: nat): nat {
    if k == 0 then 1 else 10 * PowerOfTen(k - 1)
  }

  lemma {:induction false} NumOfPad(n: nat, width: nat)
    requires n < PowerOfTen(width)
    ensures Num(Pad(n, width)) == n
  {
    if width > 0 {
      NumOfPad(n / 10, width - 1);
      assert Pad(n, width)[..width - 1] == Pad(n / 10, width - 1);
    }
  }

  lemma {:induction false} PadOfNum(s: string)
    requires AllDigits(s)
    ensures Pad(Num(s), |s|) == s && Num(s) < PowerOfTen(|s|)
  {
    if s != "" {
      var front := s[..|s| - 1];
      PadOfNum(front);
      var last := Value(s[|s| - 1]);
      assert (Num(front) * 10 + last) / 10 == Num(front) && (Num(front) * 10 + last) % 10 == last;
      assert Digit(last) == s[|s| - 1];
      assert s == front + [s[|s| - 1]];
    }
  }

  // ---------------------------------------------------------------- how Postgres prints a time in UTC

  function StripZeros(s: string): (r: string)
    ensures |r| <= |s| && (AllDigits(s) ==> AllDigits(r))
    ensures r != "" ==> r[|r| - 1] != '0'
  {
    if s != "" && s[|s| - 1] == '0' then StripZeros(s[..|s| - 1]) else s
  }

  function Fill(s: string, width: nat): (r: string)
    requires |s| <= width
    ensures |r| == width && (AllDigits(s) ==> AllDigits(r))
    decreases width - |s|
  {
    if |s| == width then s else Fill(s + "0", width)
  }

  lemma {:induction false} FillOneMore(s: string, width: nat)
    requires |s| <= width
    ensures Fill(s, width + 1) == Fill(s, width) + "0"
    decreases width - |s|
  {
    if |s| < width {
      FillOneMore(s + "0", width);
    }
  }

  lemma {:induction false} FillStripped(s: string)
    ensures Fill(StripZeros(s), |s|) == s
  {
    if s != "" && s[|s| - 1] == '0' {
      var front := s[..|s| - 1];
      FillStripped(front);
      FillOneMore(StripZeros(front), |front|);
      assert front + "0" == s;
    }
  }

  function Fraction(micro: nat): string {
    if micro == 0 then "" else "." + StripZeros(Pad(micro, 6))
  }

  function DaysIn(year: nat, month: nat): nat {
    if month in {4, 6, 9, 11} then 30
    else if month != 2 then 31
    else if year % 4 == 0 && (year % 100 != 0 || year % 400 == 0) then 29
    else 28
  }

  predicate Calendar(year: nat, month: nat, day: nat) {
    1 <= year && 1 <= month <= 12 && 1 <= day <= DaysIn(year, month)
  }

  /** A stored creation time. */
  predicate Real(t: Timestamp) {
    t.year <= 9999 && Calendar(t.year, t.month, t.day) && t.hour <= 23 && t.minute <= 59 && t.second <= 59 && t.micro <= 999999
  }

  /** `YYYY-MM-DD` */
  function Date(t: Timestamp): (s: string)
    ensures |s| == 10
  {
    Pad(t.year, 4) + "-" + Pad(t.month, 2) + "-" + Pad(t.day, 2)
  }

  /** `HH:MM:SS` */
  function Time(t: Timestamp): (s: string)
    ensures |s| == 8
  {
    Pad(t.hour, 2) + ":" + Pad(t.minute, 2) + ":" + Pad(t.second, 2)
  }

  /** `2026-07-20 04:09:35.353682+00`; trailing zeros of the fraction are not printed. */
  function Print(t: Timestamp): string {
    Date(t) + [' '] + (Time(t) + (Fraction(t.micro) + "+00"))
  }

  // ---------------------------------------------------------------- what the parser accepts

  predicate Ranges(month: nat, day: nat, hour: nat, minute: nat, second: nat) {
    1 <= month <= 12 && 1 <= day <= 31 && hour <= 23 && minute <= 59 && second <= 60
  }

  predicate IsClock(s: string)
    requires |s| >= 19
  {
    && AllDigits(s[0..4]) && s[4] == '-' && AllDigits(s[5..7]) && s[7] == '-' && AllDigits(s[8..10])
    && s[10] == 'T' && AllDigits(s[11..13]) && s[13] == ':' && AllDigits(s[14..16]) && s[16] == ':' && AllDigits(s[17..19])
    && Ranges(Num(s[5..7]), Num(s[8..10]), Num(s[11..13]), Num(s[14..16]), Num(s[17..19]))
  }

  /** How many digits a text starts with. */
  function LeadingDigits(s: string): (n: nat)
    ensures n <= |s| && AllDigits(s[..n]) && (n < |s| ==> !IsDigit(s[n]))
  {
    if s == "" || !IsDigit(s[0]) then 0 else 1 + LeadingDigits(s[1..])
  }

  predicate IsZone(s: string) {
    s in {"", "Z", "+00", "+00:00", "-00", "-00:00"}
  }

  predicate IsTail(rest: string) {
    if rest != "" && rest[0] == '.' then
      var n := LeadingDigits(rest[1..]);
      1 <= n <= 6 && IsZone(rest[1..][n..])
    else IsZone(rest)
  }

  predicate IsOurTimestamp(s: string) {
    |s| >= 19 && IsClock(s) && IsTail(s[19..])
  }

  // ---------------------------------------------------------------- the cursor

  datatype Token = Token(at: string, id: nat)

  /** Rust's `replacen(.., .., 1)` on single characters. */
  function ReplaceFirst(s: string, found: char, put: char): string {
    if s == "" then ""
    else if s[0] == found then [put] + s[1..]
    else [s[0]] + ReplaceFirst(s[1..], found, put)
  }

  /** Rust's `rsplit_once`. */
  function SplitLast(s: string, c: char): Option<(string, string)> {
    if s == "" then None
    else if s[|s| - 1] == c then Some((s[..|s| - 1], ""))
    else
      match SplitLast(s[..|s| - 1], c)
      case None => None
      case Some((a, b)) => Some((a, b + [s[|s| - 1]]))
  }

  /** The textual form of ids: it reads back, and holds no `~`. */
  datatype Uuids = Uuids(text: nat -> string, parse: string -> Option<nat>)

  ghost predicate Faithful(u: Uuids) {
    forall id: nat :: u.parse(u.text(id)) == Some(id) && '~' !in u.text(id)
  }

  function EncodeCursor(u: Uuids, at: string, id: nat): string {
    ReplaceFirst(at, ' ', 'T') + ['~'] + u.text(id)
  }

  function ParseCursor(u: Uuids, raw: string): Option<Token> {
    match SplitLast(raw, '~')
    case None => None
    case Some((at, text)) =>
      match u.parse(text)
      case None => None
      case Some(id) => if IsOurTimestamp(at) then Some(Token(at, id)) else None
  }

  /** The fraction's digits after the dot. */
  function FractionDigits(rest: string): (s: string)
    requires IsTail(rest)
    ensures |s| <= 6 && AllDigits(s)
  {
    if rest != "" && rest[0] == '.' then rest[1..][..LeadingDigits(rest[1..])] else ""
  }

  /** The microseconds a tail stands for. */
  function Micros(tail: string): nat
    requires IsTail(tail)
  {
    Num(Fill(FractionDigits(tail), 6))
  }

  /** Past the end of its day: second 60 of the last minute is midnight, and any fraction more is too much. */
  predicate Overflows(t: Timestamp) {
    t.hour == 23 && t.minute == 59 && t.second == 60 && t.micro != 0
  }

  function DayAfter(t: Timestamp): (r: Timestamp)
    requires Calendar(t.year, t.month, t.day)
    ensures Calendar(r.year, r.month, r.day) && r.hour == t.hour && r.minute == t.minute && r.second == t.second
  {
    if t.day < DaysIn(t.year, t.month) then t.(day := t.day + 1)
    else if t.month < 12 then t.(month := t.month + 1, day := 1)
    else t.(year := t.year + 1, month := 1, day := 1)
  }

  /** Second 60 is the start of the next minute. */
  function Carried(t: Timestamp): (r: Timestamp)
    requires Calendar(t.year, t.month, t.day) && t.hour <= 23 && t.minute <= 59 && t.second <= 60
    ensures Calendar(r.year, r.month, r.day) && r.hour <= 23 && r.minute <= 59 && r.second <= 59 && r.micro == t.micro
  {
    if t.second < 60 then t
    else if t.minute < 59 then t.(minute := t.minute + 1, second := 0)
    else if t.hour < 23 then t.(hour := t.hour + 1, minute := 0, second := 0)
    else DayAfter(t.(hour := 0, minute := 0, second := 0))
  }

  /** The cast of a time within its ranges: an error on a day the calendar does not have, and past
      24:00:00. */
  function CastOf(t: Timestamp): Option<Timestamp>
    requires t.hour <= 23 && t.minute <= 59 && t.second <= 60
  {
    if Calendar(t.year, t.month, t.day) && !Overflows(t) then Some(Carried(t)) else None
  }

  /** The cast to a timestamp. */
  function Cast(s: string): Option<Timestamp>
    requires IsOurTimestamp(s)
  {
    CastOf(Timestamp(Num(s[0..4]), Num(s[5..7]), Num(s[8..10]), Num(s[11..13]), Num(s[14..16]), Num(s[17..19]),
                     Micros(s[19..])))
  }

  // ---------------------------------------------------------------- what is printed reads back

  lemma {:induction false} ReplaceAt(a: string, c: char, b: string, d: char)
    requires c !in a
    ensures ReplaceFirst(a + [c] + b, c, d) == a + [d] + b
  {
    var s := a + [c] + b;
    if a == "" {
      assert s == [c] + b;
    } else {
      assert s[0] == a[0] && s[1..] == a[1..] + [c] + b;
      ReplaceAt(a[1..], c, b, d);
      assert [a[0]] + (a[1..] + [d] + b) == a + [d] + b;
    }
  }

  lemma {:induction false} SplitLastAt(a: string, c: char, b: string)
    requires c !in b
    ensures SplitLast(a + [c] + b, c) == Some((a, b))
    decreases |b|
  {
    var s := a + [c] + b;
    if b == "" {
      assert s == a + [c];
    } else {
      var front := b[..|b| - 1];
      assert s[|s| - 1] == b[|b| - 1] && s[..|s| - 1] == a + [c] + front;
      SplitLastAt(a, c, front);
      assert front + [b[|b| - 1]] == b;
    }
  }

  lemma DateSlices(t: Timestamp, rest: string)
    ensures var s := Date(t) + rest;
            && s[0..4] == Pad(t.year, 4) && s[4] == '-' && s[5..7] == Pad(t.month, 2) && s[7] == '-' && s[8..10] == Pad(t.day, 2)
  {
  }

  lemma TimeSlices(t: Timestamp, rest: string)
    ensures var s := Time(t) + rest;
            && s[0..2] == Pad(t.hour, 2) && s[2] == ':' && s[3..5] == Pad(t.minute, 2) && s[5] == ':' && s[6..8] == Pad(t.second, 2)
            && s[8..] == rest
  {
  }

  lemma DateHasNoSpace(t: Timestamp)
    ensures ' ' !in Date(t)
  {
    assert AllDigits(Pad(t.year, 4)) && AllDigits(Pad(t.month, 2)) && AllDigits(Pad(t.day, 2));
  }

  /** The accepted form: date, `T`, time, and a tail of fraction and zone. */
  function Stamp(t: Timestamp, tail: string): string {
    Date(t) + (['T'] + (Time(t) + tail))
  }

  lemma EncodedIsStamp(t: Timestamp)
    ensures ReplaceFirst(Print(t), ' ', 'T') == Stamp(t, Fraction(t.micro) + "+00")
  {
    var rest := Time(t) + (Fraction(t.micro) + "+00");
    DateHasNoSpace(t);
    ReplaceAt(Date(t), ' ', rest, 'T');
    Regroup(Date(t), ['T'], rest);
  }

  /** Slices behind the date are slices of the time. */
  lemma Shifted(date: string, c: char, time: string)
    requires |date| == 10 && |time| >= 8
    ensures var s := date + ([c] + time);
            && s[10] == c
            && s[11..13] == time[0..2] && s[13] == time[2] && s[14..16] == time[3..5] && s[16] == time[5]
            && s[17..19] == time[6..8] && s[19..] == time[8..]
  {
  }

  lemma StampSlices(t: Timestamp, tail: string)
    ensures var s := Stamp(t, tail);
            && |s| >= 19
            && s[0..4] == Pad(t.year, 4) && s[4] == '-' && s[5..7] == Pad(t.month, 2) && s[7] == '-' && s[8..10] == Pad(t.day, 2)
            && s[10] == 'T'
            && s[11..13] == Pad(t.hour, 2) && s[13] == ':' && s[14..16] == Pad(t.minute, 2) && s[16] == ':'
            && s[17..19] == Pad(t.second, 2)
            && s[19..] == tail
  {
    var time := Time(t) + tail;
    DateSlices(t, ['T'] + time);
    TimeSlices(t, tail);
    Shifted(Date(t), 'T', time);
  }

  predicate Ranged(t: Timestamp) {
    t.year <= 9999 && Ranges(t.month, t.day, t.hour, t.minute, t.second)
  }

  lemma TwoDigits(n: nat)
    requires n < 100
    ensures Num(Pad(n, 2)) == n
  {
    assert PowerOfTen(1) == 10 && PowerOfTen(2) == 100;
    NumOfPad(n, 2);
  }

  lemma FourDigits(n: nat)
    requires n < 10000
    ensures Num(Pad(n, 4)) == n
  {
    assert PowerOfTen(2) == 100 && PowerOfTen(4) == 10000;
    NumOfPad(n, 4);
  }

  lemma FieldsRead(t: Timestamp)
    requires Ranged(t)
    ensures Num(Pad(t.year, 4)) == t.year && Num(Pad(t.month, 2)) == t.month && Num(Pad(t.day, 2)) == t.day
    ensures Num(Pad(t.hour, 2)) == t.hour && Num(Pad(t.minute, 2)) == t.minute && Num(Pad(t.second, 2)) == t.second
  {
    FourDigits(t.year);
    TwoDigits(t.month);
    TwoDigits(t.day);
    TwoDigits(t.hour);
    TwoDigits(t.minute);
    TwoDigits(t.second);
  }

  /** A stamp within the ranges is accepted exactly when its tail is. */
  lemma StampAccepted(t: Timestamp, tail: string)
    requires Ranged(t)
    ensures IsOurTimestamp(Stamp(t, tail)) <==> IsTail(tail)
    ensures IsTail(tail) ==> Cast(Stamp(t, tail)) == CastOf(t.(micro := Micros(tail)))
  {
    StampSlices(t, tail);
    FieldsRead(t);
  }

  lemma FieldOfNum(s: string)
    requires |s| == 2 && AllDigits(s)
    ensures Pad(Num(s), 2) == s
  {
    PadOfNum(s);
  }

  lemma DateRebuilt(s: string, t: Timestamp)
    requires |s| >= 19 && IsClock(s)
    requires t.year == Num(s[0..4]) && t.month == Num(s[5..7]) && t.day == Num(s[8..10])
    ensures Date(t) == s[..10] && t.year < 10000
  {
    PadOfNum(s[0..4]);
    assert PowerOfTen(2) == 100 && PowerOfTen(4) == 10000;
    FieldOfNum(s[5..7]);
    FieldOfNum(s[8..10]);
  }

  lemma ColonParts(a: string, b: string, c: string, s: string)
    requires |s| == 8 && a == s[0..2] && s[2] == ':' && b == s[3..5] && s[5] == ':' && c == s[6..8]
    ensures a + ":" + b + ":" + c == s
  {
  }

  lemma TimeRebuilt(s: string, t: Timestamp)
    requires |s| >= 19 && IsClock(s)
    requires t.hour == Num(s[11..13]) && t.minute == Num(s[14..16]) && t.second == Num(s[17..19])
    ensures Time(t) == s[11..19]
  {
    ColonParts(s[11..13], s[14..16], s[17..19], s[11..19]);
    FieldOfNum(s[11..13]);
    FieldOfNum(s[14..16]);
    FieldOfNum(s[17..19]);
  }

  lemma Reassembled(s: string)
    requires |s| >= 19
    ensures s == s[..10] + ([s[10]] + (s[11..19] + s[19..]))
  {
  }

  lemma AcceptedIsStamp(s: string) returns (t: Timestamp)
    requires IsOurTimestamp(s)
    ensures Ranged(t) && s == Stamp(t, s[19..])
  {
    t := Timestamp(Num(s[0..4]), Num(s[5..7]), Num(s[8..10]), Num(s[11..13]), Num(s[14..16]), Num(s[17..19]), 0);
    DateRebuilt(s, t);
    TimeRebuilt(s, t);
    Reassembled(s);
  }

  /** Exactly which texts pass: a date and time within the ranges, and a tail. */
  lemma AcceptedIff(s: string)
    ensures IsOurTimestamp(s) <==> exists t, tail :: Ranged(t) && IsTail(tail) && s == Stamp(t, tail)
    ensures forall t :: Ranged(t) <==>
              t.year <= 9999 && 1 <= t.month <= 12 && 1 <= t.day <= 31 && t.hour <= 23 && t.minute <= 59 && t.second <= 60
  {
    if IsOurTimestamp(s) {
      var t := AcceptedIsStamp(s);
    } else {
      forall t, tail | Ranged(t) && IsTail(tail) ensures s != Stamp(t, tail) {
        StampAccepted(t, tail);
      }
    }
  }

  // ---------------------------------------------------------------- fractions

  lemma {:induction false} LeadingDigitsAt(a: string, b: string)
    requires AllDigits(a) && (b == "" || !IsDigit(b[0]))
    ensures LeadingDigits(a + b) == |a|
  {
    if a == "" {
      assert a + b == b;
    } else {
      SplitFirst(a, b);
      LeadingDigitsAt(a[1..], b);
    }
  }

  /** A tail is one of six spellings of UTC, after a dot and one to six digits or nothing. */
  ghost predicate TailOf(rest: string, zones: set<string>) {
    rest in zones
    || exists digits, zone :: rest == "." + (digits + zone) && 1 <= |digits| <= 6 && AllDigits(digits) && zone in zones
  }

  lemma ZoneIsNoNumber(zone: string)
    requires IsZone(zone)
    ensures zone == "" || (!IsDigit(zone[0]) && zone[0] != '.')
  {
  }

  lemma FractionTail(rest: string, zones: set<string>)
    requires rest != "" && rest[0] == '.' && IsTail(rest) && forall z :: z in zones <==> IsZone(z)
    ensures TailOf(rest, zones)
  {
    var n := LeadingDigits(rest[1..]);
    var digits, zone := rest[1..][..n], rest[1..][n..];
    assert digits + zone == rest[1..] && rest == "." + rest[1..];
  }

  lemma Parts<T>(a: seq<T>, b: seq<T>)
    ensures (a + b)[..|a|] == a && (a + b)[|a|..] == b
  {
  }

  lemma TailOfParts(digits: string, zone: string, rest: string)
    requires rest == "." + (digits + zone) && 1 <= |digits| <= 6 && AllDigits(digits) && IsZone(zone)
    ensures IsTail(rest)
  {
    assert rest[1..] == digits + zone;
    ZoneIsNoNumber(zone);
    LeadingDigitsAt(digits, zone);
    Parts(digits, zone);
  }

  lemma TailsAre(rest: string)
    ensures IsTail(rest) <==> TailOf(rest, {"", "Z", "+00", "+00:00", "-00", "-00:00"})
  {
    var zones: set<string> := {"", "Z", "+00", "+00:00", "-00", "-00:00"};
    assert forall z :: z in zones <==> IsZone(z);
    if rest in zones {
      ZoneIsNoNumber(rest);
    } else if IsTail(rest) {
      FractionTail(rest, zones);
    } else if TailOf(rest, zones) {
      var digits, zone :| rest == "." + (digits + zone) && 1 <= |digits| <= 6 && AllDigits(digits) && zone in zones;
      TailOfParts(digits, zone, rest);
      assert false;
    }
  }

  lemma {:induction false} FillNothing(width: nat)
    ensures Fill("", width) == Pad(0, width)
  {
    if width > 0 {
      FillNothing(width - 1);
      FillOneMore("", width - 1);
    }
  }

  lemma StrippedToNothing(n: nat, width: nat)
    requires n < PowerOfTen(width)
    ensures Num(Fill(StripZeros(Pad(n, width)), width)) == n
    ensures StripZeros(Pad(n, width)) == "" ==> n == 0
  {
    FillStripped(Pad(n, width));
    NumOfPad(n, width);
    FillNothing(width);
    NumOfPad(0, width);
  }

  lemma DotTail(digits: string)
    requires AllDigits(digits) && 1 <= |digits| <= 6 && LeadingDigits(digits + "+00") == |digits|
    ensures var tail := "." + digits + "+00"; IsTail(tail) && FractionDigits(tail) == digits
  {
    Parts(digits, "+00");
    var tail := "." + digits + "+00";
    Regroup(".", digits, "+00");
    Parts(".", digits + "+00");
    assert tail[0] == '.';
  }

  /** A printed fraction is an accepted tail and reads back. */
  lemma FractionReads(micro: nat)
    requires micro <= 999999
    ensures var tail := Fraction(micro) + "+00";
            IsTail(tail) && Micros(tail) == micro
  {
    assert PowerOfTen(2) == 100 && PowerOfTen(4) == 10000 && PowerOfTen(6) == 1000000;
    StrippedToNothing(micro, 6);
    FillNothing(6);
    NumOfPad(0, 6);
    var digits := StripZeros(Pad(micro, 6));
    if micro != 0 {
      LeadingDigitsAt(digits, "+00");
      DotTail(digits);
    } else {
      assert "" + "+00" == "+00";
    }
  }

  // ---------------------------------------------------------------- round trip

  /** A stored time is cast to itself. */
  lemma StampCasts(t: Timestamp)
    requires Real(t)
    ensures var s := Stamp(t, Fraction(t.micro) + "+00"); IsOurTimestamp(s) && Cast(s) == Some(t)
  {
    FractionReads(t.micro);
    StampAccepted(t, Fraction(t.micro) + "+00");
  }

  /** Every printed creation time and every id survive the cursor, and the timestamp is cast to the same
      instant. */
  lemma CursorRoundTrip(u: Uuids, t: Timestamp, id: nat)
    requires Faithful(u) && Real(t)
    ensures var token := ParseCursor(u, EncodeCursor(u, Print(t), id));
            token.Some? && token.value.id == id && IsOurTimestamp(token.value.at) && Cast(token.value.at) == Some(t)
  {
    EncodedIsStamp(t);
    StampCasts(t);
    SplitLastAt(Stamp(t, Fraction(t.micro) + "+00"), '~', u.text(id));
  }

  /** The check lets through days that no month has, and a leap second at the very end of a day with a
      fraction to it. The cast then fails, exactly for those. */
  lemma CastFailsIff(t: Timestamp, tail: string)
    requires Ranged(t) && IsTail(tail)
    ensures IsOurTimestamp(Stamp(t, tail))
    ensures Cast(Stamp(t, tail)).None? <==>
              || t.year == 0 || t.day > DaysIn(t.year, t.month)
              || (t.hour == 23 && t.minute == 59 && t.second == 60 && Micros(tail) != 0)
    ensures Cast(Stamp(t, tail)).None? <==>
              || t.year == 0 || (t.day == 31 && t.month in {2, 4, 6, 9, 11}) || (t.day == 30 && t.month == 2)
              || (t.day == 29 && t.month == 2 && !(t.year % 4 == 0 && (t.year % 100 != 0 || t.year % 400 == 0)))
              || (t.hour == 23 && t.minute == 59 && t.second == 60 && Micros(tail) != 0)
  {
    StampAccepted(t, tail);
  }

  /** For instance the thirty-first of February. */
  lemma NoSuchDay(tail: string)
    requires IsTail(tail)
    ensures var s := Stamp(Timestamp(2026, 2, 31, 0, 0, 0, 0), tail);
            IsOurTimestamp(s) && Cast(s).None?
  {
    CastFailsIff(Timestamp(2026, 2, 31, 0, 0, 0, 0), tail);
  }

  /** And the last leap second of a day with any fraction, such as `2026-12-31T23:59:60.5+00`. */
  lemma NoSuchSecond(micro: nat)
    requires 0 < micro <= 999999
    ensures var s := Stamp(Timestamp(2026, 12, 31, 23, 59, 60, 0), Fraction(micro) + "+00");
            IsOurTimestamp(s) && Cast(s).None?
  {
    FractionReads(micro);
    CastFailsIff(Timestamp(2026, 12, 31, 23, 59, 60, 0), Fraction(micro) + "+00");
  }

  // ---------------------------------------------------------------- the endpoint

  datatype Response = BadLimit | BadCursor | CastError | Listed(docs: seq<Key>, next: Option<string>)

  function CursorOf(u: Uuids, k: Key): string {
    EncodeCursor(u, Print(k.at), k.id)
  }

  function Rendered(u: Uuids, p: Page): Response {
    Response.Listed(p.docs, if p.next.None? then None else Some(CursorOf(u, p.next.value)))
  }

  /** `GET /documents` on one tenant's table. */
  ghost function ListDocuments(u: Uuids, t: Table, limit: Option<nat>, before: Option<string>): Response {
    match CheckedPageLimit(limit)
    case None => BadLimit
    case Some(n) =>
      match before
      case None => Rendered(u, ListPage(t, n, None))
      case Some(raw) =>
        match ParseCursor(u, raw)
        case None => BadCursor
        case Some(token) =>
          match Cast(token.at)
          case None => CastError
          case Some(at) => Rendered(u, ListPage(t, n, Some(Key(at, token.id))))
  }

  /** A time the check accepts, `~`, and an id. */
  ghost predicate CursorParts(u: Uuids, raw: string, at: string, text: string) {
    raw == at + ['~'] + text && '~' !in text && IsOurTimestamp(at) && u.parse(text).Some?
  }

  ghost predicate ReadsAsCursor(u: Uuids, raw: string) {
    exists at, text :: CursorParts(u, raw, at, text)
  }

  /** And the time is one the database cannot cast. */
  ghost predicate ReadsAsNoTime(u: Uuids, raw: string) {
    exists at, text :: CursorParts(u, raw, at, text) && Cast(at).None?
  }

  lemma {:induction false} SplitLastIs(s: string, c: char)
    ensures SplitLast(s, c).None? ==> c !in s
    ensures SplitLast(s, c).Some? ==> s == SplitLast(s, c).value.0 + [c] + SplitLast(s, c).value.1 && c !in SplitLast(s, c).value.1
  {
    if s != "" {
      assert s == s[..|s| - 1] + [s[|s| - 1]];
      if s[|s| - 1] != c {
        SplitLastIs(s[..|s| - 1], c);
      }
    }
  }

  lemma CursorReads(u: Uuids, raw: string)
    ensures ParseCursor(u, raw).Some? <==> ReadsAsCursor(u, raw)
    ensures ParseCursor(u, raw).Some? ==>
              (Cast(ParseCursor(u, raw).value.at).None? <==> ReadsAsNoTime(u, raw))
  {
    SplitLastIs(raw, '~');
    match SplitLast(raw, '~')
    case None =>
    case Some((a, b)) =>
      forall at, text | CursorParts(u, raw, at, text) ensures at == a && text == b {
        SplitLastAt(at, '~', text);
      }
      assert ParseCursor(u, raw).Some? ==> CursorParts(u, raw, a, b);
  }

  /** Each refusal, in terms of the request: a limit outside 1 to 200 before anything else, then a text that is no
      cursor, then a time that is none. */
  lemma RefusalsAre(u: Uuids, t: Table, limit: Option<nat>, before: Option<string>)
    ensures var r, ok := ListDocuments(u, t, limit, before), limit.None? || 1 <= limit.value <= 200;
            && (r.BadLimit? <==> !ok)
            && (r.BadCursor? <==> ok && before.Some? && !ReadsAsCursor(u, before.value))
            && (r.CastError? <==> ok && before.Some? && ReadsAsNoTime(u, before.value))
  {
    if before.Some? {
      CursorReads(u, before.value);
    }
  }

  ghost predicate RealTable(t: Table) {
    forall id :: id in t ==> Real(t[id].at)
  }

  /** A cursor we minted leads to exactly the page below its row. */
  lemma MintedCursorResumes(u: Uuids, t: Table, limit: nat, k: Key)
    requires Faithful(u) && Real(k.at) && 1 <= limit <= MAX_PAGE_LIMIT
    ensures ListDocuments(u, t, Some(limit), Some(CursorOf(u, k))) == Rendered(u, ListPage(t, limit, Some(k)))
  {
    CursorRoundTrip(u, k.at, k.id);
  }

  /** A walk as a client makes it, handing back each `next_cursor` as it came. */
  ghost function ClientWalk(u: Uuids, tables: seq<Table>, limit: nat, before: Option<string>): seq<Response>
    decreases |tables|
  {
    if tables == [] then []
    else
      var r := ListDocuments(u, tables[0], Some(limit), before);
      if !r.Listed? || r.next.None? then [r] else [r] + ClientWalk(u, tables[1..], limit, r.next)
  }

  ghost function RenderedAll(u: Uuids, pages: seq<Page>): seq<Response> {
    if pages == [] then [] else [Rendered(u, pages[0])] + RenderedAll(u, pages[1..])
  }

  lemma EligibleIsReal(t: Table, before: Option<Key>, k: Key)
    requires RealTable(t) && k in Eligible(t, before)
    ensures Real(k.at)
  {
  }

  lemma NextIsReal(t: Table, limit: nat, before: Option<Key>)
    requires limit >= 1 && RealTable(t)
    ensures var next := ListPage(t, limit, before).next; next.Some? ==> Real(next.value.at)
  {
    var next := ListPage(t, limit, before).next;
    if next.Some? {
      NextIsEligible(t, limit, before);
      EligibleIsReal(t, before, next.value);
    }
  }

  function Handed(u: Uuids, before: Option<Key>): Option<string> {
    if before.None? then None else Some(CursorOf(u, before.value))
  }

  lemma HandedPage(u: Uuids, t: Table, limit: nat, before: Option<Key>)
    requires Faithful(u) && 1 <= limit <= MAX_PAGE_LIMIT && (before.Some? ==> Real(before.value.at))
    ensures ListDocuments(u, t, Some(limit), Handed(u, before)) == Rendered(u, ListPage(t, limit, before))
  {
    if before.Some? {
      MintedCursorResumes(u, t, limit, before.value);
    }
  }

  lemma ClientStep(u: Uuids, tables: seq<Table>, limit: nat, before: Option<Key>)
    requires Faithful(u) && 1 <= limit <= MAX_PAGE_LIMIT && tables != [] && (before.Some? ==> Real(before.value.at))
    ensures var p := ListPage(tables[0], limit, before);
            ClientWalk(u, tables, limit, Handed(u, before))
            == [Rendered(u, p)] + if p.next.None? then [] else ClientWalk(u, tables[1..], limit, Handed(u, p.next))
  {
    HandedPage(u, tables[0], limit, before);
  }

  lemma RenderedCons(u: Uuids, p: Page, rest: seq<Page>)
    ensures RenderedAll(u, [p] + rest) == [Rendered(u, p)] + RenderedAll(u, rest)
    ensures RenderedAll(u, [p]) == [Rendered(u, p)]
  {
    assert ([p] + rest)[1..] == rest && [p][1..] == [];
  }

  ghost predicate RealTables(tables: seq<Table>) {
    forall i :: 0 <= i < |tables| ==> RealTable(tables[i])
  }

  lemma RealRest(tables: seq<Table>)
    requires tables != [] && RealTables(tables)
    ensures RealTable(tables[0]) && RealTables(tables[1..])
  {
  }

  lemma RenderedStep(u: Uuids, tables: seq<Table>, limit: nat, before: Option<Key>)
    requires limit >= 1 && tables != []
    ensures var p := ListPage(tables[0], limit, before);
            RenderedAll(u, Walk(tables, limit, before))
            == [Rendered(u, p)] + if p.next.None? then [] else RenderedAll(u, Walk(tables[1..], limit, p.next))
  {
    var p := ListPage(tables[0], limit, before);
    RenderedCons(u, p, Walk(tables[1..], limit, p.next));
  }

  /** The client's walk through cursor texts is the walk by keys: no request fails, and every page is the
      one the key names. */
  lemma {:induction false} ClientWalkIsWalk(u: Uuids, tables: seq<Table>, limit: nat, before: Option<Key>)
    requires Faithful(u) && 1 <= limit <= MAX_PAGE_LIMIT
    requires RealTables(tables) && (before.Some? ==> Real(before.value.at))
    ensures ClientWalk(u, tables, limit, Handed(u, before)) == RenderedAll(u, Walk(tables, limit, before))
    decreases |tables|
  {
    if tables != [] {
      var next := ListPage(tables[0], limit, before).next;
      ClientStep(u, tables, limit, before);
      RenderedStep(u, tables, limit, before);
      RealRest(tables);
      NextIsReal(tables[0], limit, before);
      if next.Some? {
        ClientWalkIsWalk(u, tables[1..], limit, next);
      }
    }
  }
}
