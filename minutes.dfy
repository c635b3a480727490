/**
 * Minute arithmetic of the weekly scheduler: "HH:MM" strings to minutes of
 * the day and back (`timeToMinutes`, `minutesToTime`).
 */
module Minutes {
  import opened Wrappers
  import opened Strings

  /** `timeToMinutes(t)`: `Number` of the first ':'-piece times 60 plus `Number`
      of the second. A missing second piece (`undefined`) or a piece that is not
      a number gives NaN, here None. */
  function TimeToMinutes(t: string): (m: Option<int>)
    ensures m.Some? <==> |Split(t, ':')| >= 2 && AllDigits(Split(t, ':')[0]) && AllDigits(Split(t, ':')[1])
    ensures m.Some? ==> m.value >= 0
  {
    var parts := Split(t, ':');
    if |parts| < 2 then None
    else
      match (JsNumber(parts[0]), JsNumber(parts[1]))
      case (Some(h), Some(min)) => Some(h * 60 + min)
      case _ => None
  }

  /** JavaScript's `a % 60`: the remainder takes the sign of `a`. */
  function JsRemainder60(a: int): (r: int)
    ensures -60 < r < 60
    ensures a >= 0 ==> r == a % 60
    ensures a < 0 ==> r <= 0 && r == (if a % 60 == 0 then 0 else a % 60 - 60)
  {
    if a >= 0 then a % 60 else -((-a) % 60)
  }

  /** `minutesToTime(m)`: `Math.floor(m / 60)` and `m % 60`, each written with
      `toString().padStart(2, '0')`, joined by ':'. */
  function MinutesToTime(m: int): (t: string)
    ensures 0 <= m < 6000 ==> |t| == 5 && t[2] == ':' && AllDigits(t[..2]) && AllDigits(t[3..])
  {
    ClockPieces(m);
    PadStart2(IntToString(m / 60)) + ":" + PadStart2(IntToString(JsRemainder60(m)))
  }

  /** Below 100 hours, the hours and the minutes are each written as two digits. */
  lemma ClockPieces(m: int)
    ensures 0 <= m < 6000 ==>
              && |PadStart2(IntToString(m / 60))| == 2 && AllDigits(PadStart2(IntToString(m / 60)))
              && |PadStart2(IntToString(JsRemainder60(m)))| == 2 && AllDigits(PadStart2(IntToString(JsRemainder60(m))))
  {
    if 0 <= m < 6000 {
      PaddedTwoDigitsValue(m / 60);
      PaddedTwoDigitsValue(m % 60);
    }
  }

  /** `minutesToTime(NaN)`: both halves print as "NaN". */
  function MinutesToTimeOrNaN(m: Option<int>): string {
    match m
    case Some(v) => MinutesToTime(v)
    case None => "NaN:NaN"
  }

  /** A zero-padded 24-hour "HH:MM" time of day. */
  predicate IsClockTime(t: string) {
    && |t| == 5
    && IsDigit(t[0]) && IsDigit(t[1]) && t[2] == ':' && IsDigit(t[3]) && IsDigit(t[4])
    && DigitValue(t[0]) * 10 + DigitValue(t[1]) < 24
    && DigitValue(t[3]) < 6
  }

  /** For a non-negative count the pieces are the padded quotient and remainder by 60. */
  lemma MinutesToTimePieces(m: nat)
    ensures MinutesToTime(m) == PadStart2(NatToString(m / 60)) + ":" + PadStart2(NatToString(m % 60))
  {
    assert JsRemainder60(m) == m % 60;
  }

  /** Every non-negative minute count reads back from its own spelling. */
  lemma MinutesRoundTrip(m: nat)
    ensures TimeToMinutes(MinutesToTime(m)) == Some(m)
  {
    var q, r := m / 60, m % 60;
    assert q * 60 + r == m;
    var hs, ms := PadStart2(NatToString(q)), PadStart2(NatToString(r));
    PaddedNumber(q);
    PaddedNumber(r);
    assert DigitsValue(hs) == q && DigitsValue(ms) == r;
    JoinedPiecesRead(hs, ms);
    MinutesToTimePieces(m);
  }

  /** Splitting "a:b" for separator-free digit strings a and b reads their two values. */
  lemma JoinedPiecesRead(hs: string, ms: string)
    requires AllDigits(hs) && AllDigits(ms)
    ensures TimeToMinutes(hs + ":" + ms) == Some(DigitsValue(hs) * 60 + DigitsValue(ms))
  {
    PiecesSplit(hs, ms);
    SplitPiecesRead(hs, ms);
  }

  /** Once "a:b" is known to split into a and b, the value is read from the two pieces. */
  lemma SplitPiecesRead(hs: string, ms: string)
    requires AllDigits(hs) && AllDigits(ms)
    requires Split(hs + ":" + ms, ':') == [hs, ms]
    ensures TimeToMinutes(hs + ":" + ms) == Some(DigitsValue(hs) * 60 + DigitsValue(ms))
  {
  }

  /** Digit strings joined by ':' split back into the two. */
  lemma PiecesSplit(hs: string, ms: string)
    requires AllDigits(hs) && AllDigits(ms)
    ensures Split(hs + ":" + ms, ':') == [hs, ms]
  {
    DigitsHaveNoSeparator(hs, ':');
    DigitsHaveNoSeparator(ms, ':');
    SplitPair(hs, ms, ':');
  }

  /** Two two-digit pieces in range make a clock time. */
  lemma PiecesMakeClockTime(p: string, q: string)
    requires |p| == 2 && |q| == 2 && AllDigits(p) && AllDigits(q)
    requires DigitValue(p[0]) * 10 + DigitValue(p[1]) < 24
    requires DigitValue(q[0]) * 10 + DigitValue(q[1]) < 60
    ensures IsClockTime(p + ":" + q)
  {
    var t := p + ":" + q;
    assert t[0] == p[0] && t[1] == p[1] && t[2] == ':' && t[3] == q[0] && t[4] == q[1];
  }

  /** Within a day, `minutesToTime` writes a five-character zero-padded "HH:MM". */
  lemma MinutesToTimeIsClockTime(m: int)
    requires 0 <= m < 1440
    ensures IsClockTime(MinutesToTime(m))
  {
    MinutesToTimePieces(m);
    PaddedTwoDigitsValue(m / 60);
    PaddedTwoDigitsValue(m % 60);
    PiecesMakeClockTime(PadStart2(NatToString(m / 60)), PadStart2(NatToString(m % 60)));
  }

  /** A digit spelled back from its value is the digit itself. */
  lemma DigitRoundTrip(c: char)
    requires IsDigit(c)
    ensures DigitChar(DigitValue(c)) == c
  {
  }

  /** Two digits spelled back from their values are the same two digits. */
  lemma DigitPairRoundTrip(p: string)
    requires |p| == 2 && AllDigits(p)
    ensures [DigitChar(DigitValue(p[0])), DigitChar(DigitValue(p[1]))] == p
  {
    DigitRoundTrip(p[0]);
    DigitRoundTrip(p[1]);
  }

  /** The padded spelling of ten times a digit plus a digit is those two digits. */
  lemma PaddedTensAndUnits(a: nat, b: nat)
    requires a < 10 && b < 10
    ensures PadStart2(NatToString(a * 10 + b)) == [DigitChar(a), DigitChar(b)]
  {
    TensAndUnits(a, b);
    PaddedTwoDigits(a * 10 + b);
  }

  /** The two digits of a clock-time piece are the padded spelling of their value. */
  lemma TwoDigitsRespelled(p: string)
    requires |p| == 2 && AllDigits(p)
    ensures DigitsValue(p) < 100
    ensures PadStart2(NatToString(DigitsValue(p))) == p
  {
    TwoDigitsValue(p);
    PaddedTensAndUnits(DigitValue(p[0]), DigitValue(p[1]));
    DigitPairRoundTrip(p);
  }

  /** Ten times a digit plus a digit divides back into the two. */
  lemma TensAndUnits(a: nat, b: nat)
    requires a < 10 && b < 10
    ensures (a * 10 + b) / 10 == a && (a * 10 + b) % 10 == b
  {
  }

  /** Every "HH:MM" time reads as a minute count that `minutesToTime` writes back as the same text. */
  lemma ClockTimeRoundTrip(t: string)
    requires IsClockTime(t)
    ensures TimeToMinutes(t).Some?
    ensures TimeToMinutes(t).value < 1440
    ensures MinutesToTime(TimeToMinutes(t).value) == t
  {
    var hs, ms := t[..2], t[3..];
    assert t == hs + ":" + ms;
    JoinedPiecesRead(hs, ms);
    TwoDigitsValue(hs);
    TwoDigitsValue(ms);
    var h, mm := DigitsValue(hs), DigitsValue(ms);
    var v := h * 60 + mm;
    assert v / 60 == h && v % 60 == mm;
    MinutesToTimePieces(v);
    TwoDigitsRespelled(hs);
    TwoDigitsRespelled(ms);
  }
}
