/**
 * The two timestamp renderings of the export stage, over integer milliseconds:
 * the `MM:SS` display of `get_timestamp_display` and the SRT `HH:MM:SS,mmm`
 * stamp built inline in `save_transcriptions`. Each has a parser that reads
 * the rendering back, so that the round trip states what the fields mean.
 */
module Timestamps {
  import opened Wrappers
  import opened Decimal

  /** The four fields of an SRT stamp. */
  datatype ClockTime = ClockTime(hours: nat, minutes: nat, seconds: nat, millis: nat)

  /** The length of time a clock reading denotes, in milliseconds. */
  function Millis(c: ClockTime): nat {
    c.hours * 3600000 + c.minutes * 60000 + c.seconds * 1000 + c.millis
  }

  /** `t // 3600`, `(t % 3600) // 60`, `t % 60` and `(t % 1) * 1000` for t = ms / 1000 seconds. */
  function Clock(ms: nat): (c: ClockTime)
    ensures c.minutes < 60 && c.seconds < 60 && c.millis < 1000
    ensures Millis(c) == ms
  {
    ClockFieldsRecombine(ms);
    ClockTime(ms / 3600000, ms % 3600000 / 60000, ms % 60000 / 1000, ms % 1000)
  }

  /** Taking whole hours off first does not change the position within the minute. */
  lemma MinuteRemainder(ms: nat)
    ensures ms % 60000 == ms % 3600000 % 60000
  {
    var q, r := ms / 3600000, ms % 3600000;
    var m, r2 := r / 60000, r % 60000;
    assert r == m * 60000 + r2;
    assert ms == (q * 60 + m) * 60000 + r2;
  }

  /** Taking whole minutes off first does not change the position within the second. */
  lemma SecondRemainder(ms: nat)
    ensures ms % 1000 == ms % 60000 % 1000
  {
    var q, r := ms / 60000, ms % 60000;
    var s, r2 := r / 1000, r % 1000;
    assert r == s * 1000 + r2;
    assert ms == (q * 60 + s) * 1000 + r2;
  }

  lemma ClockFieldsRecombine(ms: nat)
    ensures ms / 3600000 * 3600000 + ms % 3600000 / 60000 * 60000 + ms % 60000 / 1000 * 1000 + ms % 1000 == ms
  {
    MinuteRemainder(ms);
    SecondRemainder(ms);
    var r := ms % 3600000;
    assert ms == ms / 3600000 * 3600000 + r;
    assert r == r / 60000 * 60000 + r % 60000;
    var r2 := ms % 60000;
    assert r2 == r2 / 1000 * 1000 + r2 % 1000;
  }

  /** The SRT stamp `HH:MM:SS,mmm` (hours widen past two digits after 99 hours). */
  function SrtStamp(ms: nat): (s: string)
    ensures |s| >= 12 && s[|s| - 10] == ':' && s[|s| - 7] == ':' && s[|s| - 4] == ','
  {
    var c := Clock(ms);
    assert Pow10(2) == 100 && Pow10(3) == 1000;
    PadWidth(c.minutes, 2);
    PadWidth(c.seconds, 2);
    PadWidth(c.millis, 3);
    SrtTail(Pad(c.minutes, 2), Pad(c.seconds, 2), Pad(c.millis, 3));
    Pad(c.hours, 2) + (":" + Pad(c.minutes, 2) + ":" + Pad(c.seconds, 2) + "," + Pad(c.millis, 3))
  }

  /** Reads an SRT stamp back into milliseconds: the last ten characters are `:MM:SS,mmm`. */
  function ParseSrtStamp(s: string): Option<nat> {
    if |s| < 12 then None else ParseSrtFields(s[..|s| - 10], s[|s| - 10..])
  }

  /** The hours part and the ten-character `:MM:SS,mmm` tail of a stamp. */
  function ParseSrtFields(hh: string, tail: string): Option<nat>
    requires |tail| == 10
  {
    var mm, ss, fff := tail[1..3], tail[4..6], tail[7..];
    if tail[0] == ':' && tail[3] == ':' && tail[6] == ','
       && AllDigits(hh) && AllDigits(mm) && AllDigits(ss) && AllDigits(fff)
    then Some(Millis(ClockTime(Value(hh), Value(mm), Value(ss), Value(fff))))
    else None
  }

  lemma SplitAt<T>(a: seq<T>, b: seq<T>)
    ensures (a + b)[..|a|] == a && (a + b)[|a|..] == b
  {
  }

  /** The `:MM:SS,mmm` tail of a stamp. */
  lemma SrtTail(m: string, s: string, f: string)
    requires |m| == 2 && |s| == 2 && |f| == 3
    ensures var t := ":" + m + ":" + s + "," + f;
      |t| == 10 && t[0] == ':' && t[3] == ':' && t[6] == ',' && t[1..3] == m && t[4..6] == s && t[7..] == f
  {
  }

  lemma ParseSrtFieldsOf(h: string, t: string, m: string, s: string, f: string)
    requires AllDigits(h) && AllDigits(m) && AllDigits(s) && AllDigits(f)
    requires |t| == 10 && t[0] == ':' && t[3] == ':' && t[6] == ','
    requires t[1..3] == m && t[4..6] == s && t[7..] == f
    ensures ParseSrtFields(h, t) == Some(Millis(ClockTime(Value(h), Value(m), Value(s), Value(f))))
  {
    assert AllDigits(t[1..3]) && AllDigits(t[4..6]) && AllDigits(t[7..]);
    assert Value(t[1..3]) == Value(m) && Value(t[4..6]) == Value(s) && Value(t[7..]) == Value(f);
  }

  /** Reading the four fields back out of the `H:MM:SS,mmm` layout. */
  lemma ParseSrtLayout(h: string, m: string, s: string, f: string)
    requires AllDigits(h) && AllDigits(m) && AllDigits(s) && AllDigits(f)
    requires |h| >= 2 && |m| == 2 && |s| == 2 && |f| == 3
    ensures ParseSrtStamp(h + (":" + m + ":" + s + "," + f)) ==
      Some(Millis(ClockTime(Value(h), Value(m), Value(s), Value(f))))
  {
    var t := ":" + m + ":" + s + "," + f;
    SrtTail(m, s, f);
    SplitAt(h, t);
    var x := h + t;
    assert ParseSrtStamp(x) == ParseSrtFields(h, t);
    ParseSrtFieldsOf(h, t, m, s, f);
  }

  /** Every stamp reads back as the time it renders: no field overflows into another. */
  lemma SrtStampRoundTrip(ms: nat)
    ensures ParseSrtStamp(SrtStamp(ms)) == Some(ms)
  {
    var c := Clock(ms);
    assert Pow10(2) == 100 && Pow10(3) == 1000;
    PadWidth(c.minutes, 2);
    PadWidth(c.seconds, 2);
    PadWidth(c.millis, 3);
    ValueOfPad(c.hours, 2);
    ValueOfPad(c.minutes, 2);
    ValueOfPad(c.seconds, 2);
    ValueOfPad(c.millis, 3);
    ParseSrtLayout(Pad(c.hours, 2), Pad(c.minutes, 2), Pad(c.seconds, 2), Pad(c.millis, 3));
    assert ClockTime(Value(Pad(c.hours, 2)), Value(Pad(c.minutes, 2)), Value(Pad(c.seconds, 2)), Value(Pad(c.millis, 3))) == c;
  }

  /** A sentence from 65.25 s to 70 s is stamped `00:01:05,250 --> 00:01:10,000`. */
  lemma SrtStampExample()
    ensures SrtStamp(65250) == "00:01:05,250"
    ensures SrtStamp(70000) == "00:01:10,000"
  {
    ClockExample();
    PadExamples();
  }

  lemma ClockExample()
    ensures Clock(65250) == ClockTime(0, 1, 5, 250)
    ensures Clock(70000) == ClockTime(0, 1, 10, 0)
  {
    assert 65250 % 3600000 == 65250 && 65250 % 60000 == 5250;
    assert 70000 % 3600000 == 70000 && 70000 % 60000 == 10000;
  }

  lemma PadExamples()
    ensures Pad(0, 2) == "00" && Pad(1, 2) == "01" && Pad(5, 2) == "05" && Pad(250, 3) == "250"
    ensures Pad(10, 2) == "10" && Pad(0, 3) == "000"
  {
    assert Digits(25) == "25";
  }

  /** `get_timestamp_display`: whole minutes (not wrapped at an hour) and the seconds within the minute. */
  function Display(ms: nat): (d: string)
    ensures |d| >= 5 && d[|d| - 3] == ':'
  {
    var m, s := Pad(ms / 60000, 2), Pad(ms % 60000 / 1000, 2);
    assert Pow10(2) == 100;
    PadWidth(ms % 60000 / 1000, 2);
    SplitAt(m, ":" + s);
    m + (":" + s)
  }

  /** Reads an `MM:SS` display back into whole seconds. */
  function ParseDisplay(s: string): Option<nat> {
    var n := |s|;
    if n < 5 then None
    else
      var mm, ss := s[..n - 3], s[n - 2..];
      if s[n - 3] == ':' && AllDigits(mm) && AllDigits(ss)
      then Some(Value(mm) * 60 + Value(ss))
      else None
  }

  /** The display keeps the time to the whole second, with the seconds field below 60. */
  lemma DisplayRoundTrip(ms: nat)
    ensures ParseDisplay(Display(ms)) == Some(ms / 1000)
    ensures Value(Display(ms)[|Display(ms)| - 2..]) < 60
  {
    var m, s := Pad(ms / 60000, 2), Pad(ms % 60000 / 1000, 2);
    assert Pow10(2) == 100;
    PadWidth(ms % 60000 / 1000, 2);
    ValueOfPad(ms / 60000, 2);
    ValueOfPad(ms % 60000 / 1000, 2);
    var d := Display(ms);
    assert d == m + ":" + s;
    var n := |d|;
    assert d[..n - 3] == m;
    assert d[n - 2..] == s;
  }

  /** Neither rendering contains a line break, so each stays on its own line of a file. */
  lemma StampsHaveNoNewline(ms: nat)
    ensures '\n' !in SrtStamp(ms) && '\n' !in Display(ms)
  {
    var c := Clock(ms);
    DigitsAvoid(Pad(c.hours, 2), '\n');
    DigitsAvoid(Pad(c.minutes, 2), '\n');
    DigitsAvoid(Pad(c.seconds, 2), '\n');
    DigitsAvoid(Pad(c.millis, 3), '\n');
    DigitsAvoid(Pad(ms / 60000, 2), '\n');
    DigitsAvoid(Pad(ms % 60000 / 1000, 2), '\n');
  }
}
