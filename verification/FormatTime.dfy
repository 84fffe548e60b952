/** The duration printer, and a reader of what it prints. Durations are exact milliseconds. */
module FormatTime {
  import opened Arithmetic
  import opened Wrappers

  const DECISECONDS_PER_SECOND := 10
  const SECONDS_PER_MINUTE := 60
  const SECONDS_PER_HOUR := 3600
  const SECONDS_PER_DAY := 86400
  const NO_VALUE := "\U{2014}"

  function Digit(d: nat): char
    requires d < 10
  {
    '0' + d as char
  }

  predicate IsDigit(c: char) {
    '0' <= c <= '9'
  }

  /** A whole number in decimal, without leading zeros. */
  function Digits(n: nat): string {
    if n < 10 then [Digit(n)] else Digits(n / 10) + [Digit(n % 10)]
  }

  function Pad2(n: nat): string {
    if |Digits(n)| < 2 then "0" + Digits(n) else Digits(n)
  }

  function Magnitude(ms: real): real {
    if ms < 0.0 then -ms else ms
  }

  /** Whole tenths of a second, rounded once, a half upwards. */
  function Deciseconds(ms: real): nat {
    (Magnitude(ms) / 100.0 + 0.5).Floor
  }

  datatype Fields = Fields(days: nat, hours: nat, minutes: nat, seconds: nat, tenth: nat)

  predicate InRange(f: Fields) {
    f.hours < 24 && f.minutes < 60 && f.seconds < 60 && f.tenth < 10
  }

  /** The tenths of a second that the fields add up to. */
  function Total(f: Fields): nat {
    (((f.days * 24 + f.hours) * 60 + f.minutes) * 60 + f.seconds) * 10 + f.tenth
  }

  /** The one way to carry tenths of a second into fields in range. */
  function Split(ds: nat): (f: Fields)
    ensures InRange(f) && Total(f) == ds
  {
    var seconds := ds / 10;
    var minutes := seconds / 60;
    var hours := minutes / 60;
    Fields(hours / 24, hours % 24, minutes % 60, seconds % 60, ds % 10)
  }

  function Tail(f: Fields): string {
    "." + Digits(f.tenth) + "s"
  }

  function FromSeconds(f: Fields): string {
    Pad2(f.seconds) + Tail(f)
  }

  function FromMinutes(f: Fields): string {
    Pad2(f.minutes) + ("m" + FromSeconds(f))
  }

  function FromHours(f: Fields): string {
    Pad2(f.hours) + ("h" + FromMinutes(f))
  }

  /** Starts at the largest field in use; the fields after it are padded to two digits. */
  function Unsigned(f: Fields): string {
    if f.days > 0 then Digits(f.days) + ("d" + FromHours(f))
    else if f.hours > 0 then Digits(f.hours) + ("h" + FromMinutes(f))
    else if f.minutes > 0 then Digits(f.minutes) + ("m" + FromSeconds(f))
    else Digits(f.seconds) + Tail(f)
  }

  function Render(negative: bool, f: Fields): string {
    (if negative then "-" else "") + Unsigned(f)
  }

  /** What a duration prints as. */
  function Printed(ms: real): string {
    Render(ms < 0.0, Split(Deciseconds(ms)))
  }

  function Text(ms: Option<real>): string {
    if ms.None? then NO_VALUE else Printed(ms.value)
  }

  /** The same text, joined from left to right. */
  lemma UnsignedJoined(f: Fields)
    ensures f.days > 0 ==>
      Unsigned(f)
      == Digits(f.days) + "d" + Pad2(f.hours) + "h" + Pad2(f.minutes) + "m" + Pad2(f.seconds) + Tail(f)
    ensures f.days == 0 && f.hours > 0 ==>
      Unsigned(f) == Digits(f.hours) + "h" + Pad2(f.minutes) + "m" + Pad2(f.seconds) + Tail(f)
    ensures f.days == 0 && f.hours == 0 && f.minutes > 0 ==>
      Unsigned(f) == Digits(f.minutes) + "m" + Pad2(f.seconds) + Tail(f)
    ensures f.days == 0 && f.hours == 0 && f.minutes == 0 ==> Unsigned(f) == Digits(f.seconds) + Tail(f)
  {
    hide Digits, Pad2;
  }

  /** A decimal has no leading zero. */
  lemma {:induction false} NoLeadingZero(n: nat)
    ensures |Digits(n)| == 1 <==> n < 10
    ensures n >= 10 ==> Digits(n)[0] != '0'
  {
    if n >= 10 {
      NoLeadingZero(n / 10);
    }
  }

  function Two(n: nat): string
    requires n < 100
  {
    ['0' + (n / 10) as char, '0' + (n % 10) as char]
  }

  /** A padded field below a hundred is its two decimal digits. */
  lemma {:induction false} TwoDigits(n: nat)
    requires n < 100
    ensures Pad2(n) == Two(n)
  {
    if n >= 10 {
      assert Digits(n / 10) == [Digit(n / 10)];
    } else {
      assert n / 10 == 0 && n % 10 == n;
    }
  }

  lemma TailIs(f: Fields)
    requires InRange(f)
    ensures Tail(f) == "." + ['0' + f.tenth as char] + "s"
  {
    assert Digits(f.tenth) == [Digit(f.tenth)];
  }

  /** The layout of a duration: the largest field in use has no leading zero, every field below it just two
      digits, the tenths one. */
  lemma {:induction false} Layout(f: Fields)
    requires InRange(f)
    ensures var tail := "." + ['0' + f.tenth as char] + "s";
            Unsigned(f) ==
              if f.days > 0 then
                Digits(f.days) + "d" + Two(f.hours) + "h" + Two(f.minutes) + "m" + Two(f.seconds) + tail
              else if f.hours > 0 then Digits(f.hours) + "h" + Two(f.minutes) + "m" + Two(f.seconds) + tail
              else if f.minutes > 0 then Digits(f.minutes) + "m" + Two(f.seconds) + tail
              else Digits(f.seconds) + tail
    ensures forall n :: (|Digits(n)| == 1 <==> n < 10) && (n >= 10 ==> Digits(n)[0] != '0')
  {
    forall n
      ensures (|Digits(n)| == 1 <==> n < 10) && (n >= 10 ==> Digits(n)[0] != '0')
    {
      NoLeadingZero(n);
    }
    hide Digits, Pad2, Two, Unsigned, Tail;
    UnsignedJoined(f);
    TwoDigits(f.hours);
    TwoDigits(f.minutes);
    TwoDigits(f.seconds);
    TailIs(f);
  }

  lemma Carried(p: nat, low: nat, q: nat, digit: nat, base: nat)
    requires p * base + low == q * base + digit && low < base && digit < base
    ensures p == q && low == digit
  {
    Stretch(p - q, base);
    assert (p - q) * base == p * base - q * base;
  }

  lemma SplitUnique(f: Fields, g: Fields)
    requires InRange(f) && InRange(g) && Total(f) == Total(g)
    ensures f == g
  {
    var fm, gm := (f.days * 24 + f.hours) * 60 + f.minutes, (g.days * 24 + g.hours) * 60 + g.minutes;
    Carried(fm * 60 + f.seconds, f.tenth, gm * 60 + g.seconds, g.tenth, 10);
    Carried(fm, f.seconds, gm, g.seconds, 60);
    Carried(f.days * 24 + f.hours, f.minutes, g.days * 24 + g.hours, g.minutes, 60);
    Carried(f.days, f.hours, g.days, g.hours, 24);
  }

  method FormatTime(ms: Option<real>) returns (out: string)
    ensures out == Text(ms)
    ensures ms.None? ==> out == "\U{2014}"
  {
    if ms.None? {
      return NO_VALUE;
    }
    hide Digits, Pad2, Unsigned, Deciseconds;
    var neg := ms.value < 0.0;
    var totalDs := Deciseconds(ms.value);
    var tenth := totalDs % DECISECONDS_PER_SECOND;
    var totalSec := totalDs / DECISECONDS_PER_SECOND;
    ghost var wholeSec := totalSec;
    var days := totalSec / SECONDS_PER_DAY;
    totalSec := totalSec % SECONDS_PER_DAY;
    var hours := totalSec / SECONDS_PER_HOUR;
    totalSec := totalSec % SECONDS_PER_HOUR;
    var minutes := totalSec / SECONDS_PER_MINUTE;
    var seconds := totalSec % SECONDS_PER_MINUTE;
    ghost var f := Fields(days, hours, minutes, seconds, tenth);
    SplitUnique(f, Split(totalDs));
    var tail := "." + Digits(tenth) + "s";
    if days > 0 {
      out := Digits(days) + "d" + Pad2(hours) + "h" + Pad2(minutes) + "m" + Pad2(seconds) + tail;
    } else if hours > 0 {
      out := Digits(hours) + "h" + Pad2(minutes) + "m" + Pad2(seconds) + tail;
    } else if minutes > 0 {
      out := Digits(minutes) + "m" + Pad2(seconds) + tail;
    } else {
      out := Digits(seconds) + tail;
    }
    UnsignedJoined(f);
    out := (if neg then "-" else "") + out;
    assert out == Render(neg, f);
  }

  /** Reads a run of digits after `acc`: the number, and what follows it. */
  function ReadNumber(s: string, acc: nat): (nat, string) {
    if s != [] && IsDigit(s[0]) then ReadNumber(s[1..], acc * 10 + (s[0] - '0') as nat) else (acc, s)
  }

  /** Tenths of a second from the fields left in `s`, after `seconds` already read. */
  function ReadFields(s: string, seconds: nat): Option<nat>
    decreases |s|
  {
    var (n, rest) := ReadNumber(s, 0);
    if rest == [] || |rest| > |s| then None
    else if rest[0] == 'd' then ReadFields(rest[1..], seconds + n * SECONDS_PER_DAY)
    else if rest[0] == 'h' then ReadFields(rest[1..], seconds + n * SECONDS_PER_HOUR)
    else if rest[0] == 'm' then ReadFields(rest[1..], seconds + n * SECONDS_PER_MINUTE)
    else if rest[0] == '.' then
      var (tenth, unit) := ReadNumber(rest[1..], 0);
      if unit == "s" then Some((seconds + n) * DECISECONDS_PER_SECOND + tenth) else None
    else None
  }

  /** The sign and the tenths of a second that a text names. */
  function Read(s: string): Option<(bool, nat)> {
    var negative := s != [] && s[0] == '-';
    var r := ReadFields(if negative then s[1..] else s, 0);
    if r.Some? then Some((negative, r.value)) else None
  }

  /** A number printed before `rest` is read back digit for digit. */
  lemma {:induction false} NumberReadBack(n: nat, rest: string)
    ensures ReadNumber(Digits(n) + rest, 0) == ReadNumber(rest, n)
  {
    if n < 10 {
      assert (Digits(n) + rest)[1..] == rest;
    } else {
      var last := [Digit(n % 10)];
      assert Digits(n) + rest == Digits(n / 10) + (last + rest);
      NumberReadBack(n / 10, last + rest);
      assert (last + rest)[1..] == rest;
    }
  }

  lemma PaddedReadBack(n: nat, rest: string)
    ensures ReadNumber(Pad2(n) + rest, 0) == ReadNumber(rest, n)
  {
    NumberReadBack(n, rest);
    var zero := "0" + Digits(n) + rest;
    assert zero[1..] == Digits(n) + rest;
  }

  /** One field: a number, printed either way, then its unit. */
  lemma FieldReadBack(n: nat, unit: char, rest: string, text: string, seconds: nat)
    requires text == Digits(n) + ([unit] + rest) || text == Pad2(n) + ([unit] + rest)
    ensures unit == 'd' ==> ReadFields(text, seconds) == ReadFields(rest, seconds + n * SECONDS_PER_DAY)
    ensures unit == 'h' ==> ReadFields(text, seconds) == ReadFields(rest, seconds + n * SECONDS_PER_HOUR)
    ensures unit == 'm' ==> ReadFields(text, seconds) == ReadFields(rest, seconds + n * SECONDS_PER_MINUTE)
  {
    hide Digits, Pad2;
    NumberReadBack(n, [unit] + rest);
    PaddedReadBack(n, [unit] + rest);
    assert ([unit] + rest)[1..] == rest;
    assert IsDigit(unit) || ReadNumber([unit] + rest, n) == (n, [unit] + rest);
    hide ReadNumber;
  }

  lemma TailStep(text: string, tail: string, n: nat, tenth: nat, seconds: nat)
    requires ReadNumber(text, 0) == (n, tail) && 0 < |tail| <= |text| && tail[0] == '.'
    requires ReadNumber(tail[1..], 0) == (tenth, "s")
    ensures ReadFields(text, seconds) == Some((seconds + n) * DECISECONDS_PER_SECOND + tenth)
  {
    hide ReadNumber;
  }

  /** A number ends where the digits do. */
  lemma NumberEnds(rest: string, acc: nat)
    requires rest == [] || !IsDigit(rest[0])
    ensures ReadNumber(rest, acc) == (acc, rest)
  {
  }

  lemma TailReadBack(n: nat, tenth: nat, text: string, seconds: nat)
    requires tenth < 10
    requires text == Digits(n) + ("." + Digits(tenth) + "s") || text == Pad2(n) + ("." + Digits(tenth) + "s")
    ensures ReadFields(text, seconds) == Some((seconds + n) * DECISECONDS_PER_SECOND + tenth)
  {
    hide Digits, Pad2, ReadNumber, ReadFields;
    var tail := "." + Digits(tenth) + "s";
    NumberReadBack(n, tail);
    PaddedReadBack(n, tail);
    NumberEnds(tail, n);
    assert tail[1..] == Digits(tenth) + "s";
    NumberReadBack(tenth, "s");
    NumberEnds("s", tenth);
    TailStep(text, tail, n, tenth, seconds);
  }

  lemma {:induction false} StartsWithDigit(n: nat)
    ensures Digits(n) != [] && IsDigit(Digits(n)[0])
  {
    if n >= 10 {
      StartsWithDigit(n / 10);
    }
  }

  lemma FromSecondsReadBack(f: Fields, before: nat)
    requires InRange(f)
    ensures ReadFields(FromSeconds(f), before) == Some((before + f.seconds) * 10 + f.tenth)
  {
    hide Digits, Pad2, ReadFields;
    TailReadBack(f.seconds, f.tenth, FromSeconds(f), before);
  }

  lemma FromMinutesReadBack(f: Fields, before: nat)
    requires InRange(f)
    ensures ReadFields(FromMinutes(f), before) == Some((before + f.minutes * 60 + f.seconds) * 10 + f.tenth)
  {
    hide Digits, Pad2, ReadFields, FromSeconds;
    FieldReadBack(f.minutes, 'm', FromSeconds(f), FromMinutes(f), before);
    FromSecondsReadBack(f, before + f.minutes * 60);
  }

  lemma FromHoursReadBack(f: Fields, before: nat)
    requires InRange(f)
    ensures ReadFields(FromHours(f), before)
         == Some((before + f.hours * 3600 + f.minutes * 60 + f.seconds) * 10 + f.tenth)
  {
    hide Digits, Pad2, ReadFields, FromMinutes;
    FieldReadBack(f.hours, 'h', FromMinutes(f), FromHours(f), before);
    FromMinutesReadBack(f, before + f.hours * 3600);
  }

  lemma TailOf(f: Fields)
    ensures Tail(f) == "." + Digits(f.tenth) + "s"
  {
  }

  lemma UnsignedReadBack(f: Fields)
    requires InRange(f)
    ensures Unsigned(f) != [] && IsDigit(Unsigned(f)[0]) && ReadFields(Unsigned(f), 0) == Some(Total(f))
  {
    hide Digits, Pad2, ReadFields, Tail, FromSeconds, FromMinutes, FromHours;
    var text := Unsigned(f);
    if f.days > 0 {
      StartsWithDigit(f.days);
      FieldReadBack(f.days, 'd', FromHours(f), text, 0);
      FromHoursReadBack(f, f.days * SECONDS_PER_DAY);
    } else if f.hours > 0 {
      StartsWithDigit(f.hours);
      FieldReadBack(f.hours, 'h', FromMinutes(f), text, 0);
      FromMinutesReadBack(f, f.hours * SECONDS_PER_HOUR);
    } else if f.minutes > 0 {
      StartsWithDigit(f.minutes);
      FieldReadBack(f.minutes, 'm', FromSeconds(f), text, 0);
      FromSecondsReadBack(f, f.minutes * SECONDS_PER_MINUTE);
    } else {
      StartsWithDigit(f.seconds);
      TailOf(f);
      TailReadBack(f.seconds, f.tenth, text, 0);
    }
  }

  /** Reading what was printed gives back the sign and the exact count of tenths. */
  lemma RenderReadBack(negative: bool, f: Fields)
    requires InRange(f)
    ensures Read(Render(negative, f)) == Some((negative, Total(f)))
  {
    hide Unsigned, ReadFields, Total;
    UnsignedReadBack(f);
    assert negative ==> Render(negative, f)[1..] == Unsigned(f);
    assert !negative ==> Render(negative, f) == Unsigned(f);
  }

  /** Every printed duration reads back to its sign and rounded count, so two print alike exactly when both
      agree. */
  lemma PrintedAlikeIff(a: real, b: real)
    ensures Read(Printed(a)) == Some((a < 0.0, Deciseconds(a)))
    ensures Printed(a) == Printed(b) <==> (a < 0.0 <==> b < 0.0) && Deciseconds(a) == Deciseconds(b)
  {
    hide Render, Read, Deciseconds;
    RenderReadBack(a < 0.0, Split(Deciseconds(a)));
    RenderReadBack(b < 0.0, Split(Deciseconds(b)));
  }

  /** A printed duration is never the text for a missing one. */
  lemma NeverNoValue(ms: real)
    ensures Printed(ms) != NO_VALUE
  {
    PrintedAlikeIff(ms, ms);
    hide Printed;
    assert ReadNumber(NO_VALUE, 0) == (0, NO_VALUE);
  }

  /** What a reader of the text can tell: whether there is a duration, its sign, and its exact tenths. */
  lemma {:induction false} TextsAlikeIff(a: Option<real>, b: Option<real>)
    ensures Text(a) == Text(b)
       <==> if a.None? || b.None? then a.None? && b.None?
            else (a.value < 0.0 <==> b.value < 0.0) && Deciseconds(a.value) == Deciseconds(b.value)
  {
    hide Printed, Deciseconds;
    if a.Some? {
      NeverNoValue(a.value);
    }
    if b.Some? {
      NeverNoValue(b.value);
    }
    if a.Some? && b.Some? {
      PrintedAlikeIff(a.value, b.value);
    }
  }

  /** The rounding is to the nearest tenth, a half upwards in size. */
  lemma RoundedOnce(ms: real)
    ensures Deciseconds(ms) as real * 100.0 - 50.0 <= Magnitude(ms) < Deciseconds(ms) as real * 100.0 + 50.0
  {
    var x := Magnitude(ms) / 100.0;
    assert x * 100.0 == Magnitude(ms);
  }

  lemma ZeroSplit(ds: nat)
    ensures ds == 0 ==> Split(ds) == Fields(0, 0, 0, 0, 0)
  {
    hide Split;
    assert Total(Split(ds)) == ds;
  }

  lemma RenderNone(negative: bool)
    ensures Render(negative, Fields(0, 0, 0, 0, 0)) == (if negative then "-" else "") + "0.0s"
  {
    assert Digits(0) == "0";
  }

  lemma {:induction false} ZeroPrinted(ms: real)
    requires -50.0 < ms < 50.0
    ensures Printed(ms) == (if ms < 0.0 then "-" else "") + "0.0s"
  {
    RoundedOnce(ms);
    hide Deciseconds, Render, Split, Total, Digits, Pad2, Unsigned;
    ZeroSplit(Deciseconds(ms));
    RenderNone(ms < 0.0);
  }

  /** A negative duration that rounds to nothing still prints its sign, unlike zero. */
  lemma {:induction false} NegativeZero(ms: real)
    requires -50.0 < ms < 0.0
    ensures Printed(0.0) == "0.0s" && Printed(ms) == "-0.0s"
  {
    hide Printed, Deciseconds;
    ZeroPrinted(ms);
    ZeroPrinted(0.0);
  }
}
