/**
 * The faucet panel's two formatters: formatTime, the countdown to the next
 * claim, and formatMON, a wei amount as MON with three decimals.
 */
module Format {

  import opened Wrappers
  import opened Digits
  import opened NumberParser

  // ---------------------------------------------------------------- formatTime

  const ClaimableNowText: string := "现在可以领取"

  datatype TimeUnit = Day | Hour | Minute | Second

  function UnitSeconds(u: TimeUnit): nat {
    match u
    case Day => 86400
    case Hour => 3600
    case Minute => 60
    case Second => 1
  }

  function UnitName(u: TimeUnit): string {
    match u
    case Day => "天"
    case Hour => "小时"
    case Minute => "分钟"
    case Second => "秒"
  }

  /** The unit shown after a major unit. */
  function NextUnit(u: TimeUnit): TimeUnit
    requires u != Second
  {
    match u
    case Day => Hour
    case Hour => Minute
    case Minute => Second
  }

  datatype Duration = Duration(days: nat, hours: nat, minutes: nat, secs: nat)

  /** Whole days, then hours, minutes and seconds of what is left. */
  function Decompose(seconds: nat): (d: Duration)
    ensures seconds == 86400 * d.days + 3600 * d.hours + 60 * d.minutes + d.secs
    ensures d.hours < 24 && d.minutes < 60 && d.secs < 60
  {
    DecomposeFacts(seconds);
    Duration(seconds / 86400, seconds % 86400 / 3600, seconds % 3600 / 60, seconds % 60)
  }

  /** The remainders below a day, an hour and a minute nest inside each other. */
  lemma DecomposeFacts(seconds: nat)
    ensures seconds % 86400 == 3600 * (seconds % 86400 / 3600) + seconds % 3600
    ensures seconds % 3600 == 60 * (seconds % 3600 / 60) + seconds % 60
  {
    var days, belowDay := seconds / 86400, seconds % 86400;
    var hours, belowHour := belowDay / 3600, belowDay % 3600;
    DivModUnique(seconds, 3600, 24 * days + hours, belowHour);
    var minutes, belowMinute := belowHour / 60, belowHour % 60;
    DivModUnique(seconds, 60, 60 * (24 * days + hours) + minutes, belowMinute);
  }

  /** A positive multiple of m is at least m. */
  lemma {:induction false} MultipleAtLeast(m: nat, k: nat)
    requires k >= 1
    ensures m * k >= m
    decreases k
  {
    if k > 1 {
      MultipleAtLeast(m, k - 1);
      assert m * k == m * (k - 1) + m;
    }
  }

  /** Quotient and remainder are the only ones with a remainder below the divisor. */
  lemma DivModUnique(n: nat, m: nat, q: nat, r: nat)
    requires m > 0 && n == m * q + r && r < m
    ensures q == n / m && r == n % m
  {
    var q', r' := n / m, n % m;
    assert n == m * q' + r';
    if q > q' {
      MultipleAtLeast(m, q - q');
    } else if q' > q {
      MultipleAtLeast(m, q' - q);
    }
  }

  /** The decomposition is the only one with those bounds. */
  lemma DecomposeUnique(seconds: nat, d: Duration)
    requires seconds == 86400 * d.days + 3600 * d.hours + 60 * d.minutes + d.secs
    requires d.hours < 24 && d.minutes < 60 && d.secs < 60
    ensures d == Decompose(seconds)
  {
    var belowHour := 60 * d.minutes + d.secs;
    var belowDay := 3600 * d.hours + belowHour;
    DivModUnique(seconds, 86400, d.days, belowDay);
    DivModUnique(belowDay, 3600, d.hours, belowHour);
    DivModUnique(seconds, 3600, 24 * d.days + d.hours, belowHour);
    DivModUnique(belowHour, 60, d.minutes, d.secs);
    DivModUnique(seconds, 60, 1440 * d.days + 60 * d.hours + d.minutes, d.secs);
  }

  /** What a countdown shows, before it is turned into text. */
  datatype Countdown =
    | ClaimableNow
    | TwoUnits(major: nat, unit: TimeUnit, minor: nat)
    | SecondsOnly(secs: nat)

  predicate WellFormed(c: Countdown) {
    c.TwoUnits? ==> c.unit != Second
  }

  /** The seconds that a two-unit countdown accounts for. */
  function ShownSeconds(c: Countdown): int
    requires c.TwoUnits? && c.unit != Second
  {
    c.major * UnitSeconds(c.unit) + c.minor * UnitSeconds(NextUnit(c.unit))
  }

  /**
   * The largest non-zero unit and the one below it, even when that one is
   * zero; under a minute, the seconds alone. The shown value is the input
   * rounded down to a whole minor unit.
   */
  function CountdownOf(seconds: int): (c: Countdown)
    ensures WellFormed(c)
    ensures c.ClaimableNow? <==> seconds <= 0
    ensures c.SecondsOnly? <==> 0 < seconds < 60
    ensures c.SecondsOnly? ==> c.secs == seconds
    ensures c.TwoUnits? ==>
              && c.major > 0
              && c.minor * UnitSeconds(NextUnit(c.unit)) < UnitSeconds(c.unit)
              && ShownSeconds(c) <= seconds < ShownSeconds(c) + UnitSeconds(NextUnit(c.unit))
    ensures c.TwoUnits? ==> (c.unit == Day <==> seconds >= 86400)
    ensures c.TwoUnits? ==> (c.unit == Hour <==> 3600 <= seconds < 86400)
    ensures c.TwoUnits? ==> (c.unit == Minute <==> 60 <= seconds < 3600)
  {
    if seconds <= 0 then ClaimableNow
    else
      var d := Decompose(seconds);
      if d.days > 0 then TwoUnits(d.days, Day, d.hours)
      else if d.hours > 0 then TwoUnits(d.hours, Hour, d.minutes)
      else if d.minutes > 0 then TwoUnits(d.minutes, Minute, d.secs)
      else SecondsOnly(d.secs)
  }

  function Render(c: Countdown): string
    requires WellFormed(c)
  {
    match c
    case ClaimableNow => ClaimableNowText
    case TwoUnits(a, u, b) => NatToString(a) + UnitName(u) + " " + NatToString(b) + UnitName(NextUnit(u))
    case SecondsOnly(s) => NatToString(s) + UnitName(Second)
  }

  /**
   * formatTime(seconds): the claimable-now sentence exactly for counts that
   * are not positive, and otherwise a text that reads back as the count's
   * countdown.
   */
  function FormatTime(seconds: int): (text: string)
    ensures text == ClaimableNowText <==> seconds <= 0
    ensures ReadCountdown(text) == Some(CountdownOf(seconds))
  {
    var c := CountdownOf(seconds);
    RenderRoundTrip(c);
    Render(c)
  }

  /** Whole days show the day count and zero hours. */
  lemma FormatTimeOneDay()
    ensures FormatTime(86400) == "1天 0小时"
  {
    assert CountdownOf(86400) == TwoUnits(1, Day, 0);
  }

  lemma FormatTimeDayAndHour()
    ensures FormatTime(90061) == "1天 1小时"
  {
    assert CountdownOf(90061) == TwoUnits(1, Day, 1);
  }

  lemma FormatTimeHourAndMinute()
    ensures FormatTime(3661) == "1小时 1分钟"
  {
    assert CountdownOf(3661) == TwoUnits(1, Hour, 1);
  }

  lemma FormatTimeMinutesAndSeconds()
    ensures FormatTime(125) == "2分钟 5秒"
  {
    assert CountdownOf(125) == TwoUnits(2, Minute, 5);
  }

  /** Under a minute only the seconds show. */
  lemma FormatTimeSecondsOnly()
    ensures FormatTime(45) == "45秒"
  {
    assert CountdownOf(45) == SecondsOnly(45);
    assert NatToString(45) == "45";
  }

  // ---------------------------------------------------------- reading it back

  /** The unit whose name starts rest, told apart by its first character. */
  function UnitAtFront(rest: string): Option<TimeUnit> {
    if |rest| == 0 then None
    else if rest[0] == UnitName(Day)[0] then Some(Day)
    else if rest[0] == UnitName(Hour)[0] then Some(Hour)
    else if rest[0] == UnitName(Minute)[0] then Some(Minute)
    else None
  }

  /** The figure at the front of text and the text after it. */
  function ReadFigure(text: string): Option<(nat, string)> {
    var k := DigitPrefixLen(text);
    if k == 0 then None else Some((DigitsValue(text[..k]), text[k..]))
  }

  /** The minor figure and its unit, which must be the one after u. */
  function ReadMinorPart(u: TimeUnit, minorText: string): Option<nat>
    requires u != Second
  {
    match ReadFigure(minorText)
    case None => None
    case Some((minor, after)) => if after == UnitName(NextUnit(u)) then Some(minor) else None
  }

  /** What follows the major figure: the seconds unit alone, or a unit, a space and the minor part. */
  function ReadAfterMajor(major: nat, rest: string): Option<Countdown> {
    if rest == UnitName(Second) then Some(SecondsOnly(major))
    else match UnitAtFront(rest)
      case None => None
      case Some(u) =>
        var n := |UnitName(u)| + 1;
        if u == Second || |rest| < n || rest[..n] != UnitName(u) + " " then None
        else match ReadMinorPart(u, rest[n..])
          case None => None
          case Some(minor) => Some(TwoUnits(major, u, minor))
  }

  /** Recover the countdown from its text. */
  function ReadCountdown(text: string): Option<Countdown> {
    if text == ClaimableNowText then Some(ClaimableNow)
    else match ReadFigure(text)
      case None => None
      case Some((major, rest)) => ReadAfterMajor(major, rest)
  }

  /** A figure followed by text that does not start with a digit splits back into the two. */
  lemma SplitFigure(w: string, rest: string)
    requires AllDigits(w) && |w| > 0
    requires rest != [] && !IsDigit(rest[0])
    ensures ReadFigure(w + rest) == Some((DigitsValue(w), rest))
    ensures w + rest != ClaimableNowText
  {
    DigitPrefixOfConcat(w, rest);
    assert (w + rest)[0] == w[0];
    assert (w + rest)[..|w|] == w && (w + rest)[|w|..] == rest;
  }

  /** The text of a seconds-only countdown gives it back. */
  lemma ReadSecondsOnly(secs: nat)
    ensures ReadCountdown(Render(SecondsOnly(secs))) == Some(SecondsOnly(secs))
  {
    SplitFigure(NatToString(secs), UnitName(Second));
    NatToStringRoundTrip(secs);
  }

  /** A unit's name, a space and anything after it are recognised as that unit. */
  lemma UnitAtFrontOfName(u: TimeUnit, tail: string)
    requires u != Second
    ensures UnitAtFront(UnitName(u) + " " + tail) == Some(u)
  {
    var rest := UnitName(u) + " " + tail;
    assert rest[0] == UnitName(u)[0];
  }

  /** The minor figure followed by the next unit's name reads back. */
  lemma ReadMinorPartOf(u: TimeUnit, minor: nat)
    requires u != Second
    ensures ReadMinorPart(u, NatToString(minor) + UnitName(NextUnit(u))) == Some(minor)
  {
    SplitFigure(NatToString(minor), UnitName(NextUnit(u)));
    NatToStringRoundTrip(minor);
  }

  /** After a unit's name and a space, the reader goes on to the minor part. */
  lemma ReadAfterUnitName(major: nat, u: TimeUnit, tail: string)
    requires u != Second
    ensures ReadAfterMajor(major, UnitName(u) + " " + tail)
            == if ReadMinorPart(u, tail).Some? then Some(TwoUnits(major, u, ReadMinorPart(u, tail).value)) else None
  {
    var name := UnitName(u) + " ";
    var rest := name + tail;
    assert |rest| > 1;
    UnitAtFrontOfName(u, tail);
    assert rest[..|name|] == name && rest[|name|..] == tail;
  }

  /** After the major figure come the unit's name, a space and the minor part. */
  lemma ReadUnitAfterMajor(major: nat, u: TimeUnit, minor: nat)
    requires u != Second
    ensures ReadAfterMajor(major, UnitName(u) + " " + NatToString(minor) + UnitName(NextUnit(u)))
            == Some(TwoUnits(major, u, minor))
  {
    var tail := NatToString(minor) + UnitName(NextUnit(u));
    ReadAfterUnitName(major, u, tail);
    ReadMinorPartOf(u, minor);
    assert UnitName(u) + " " + tail == UnitName(u) + " " + NatToString(minor) + UnitName(NextUnit(u));
  }

  /** A figure followed by the rest of a countdown is read as that figure, then the rest. */
  lemma ReadCountdownAfterFigure(w: string, rest: string)
    requires AllDigits(w) && |w| > 0
    requires rest != [] && !IsDigit(rest[0])
    ensures ReadCountdown(w + rest) == ReadAfterMajor(DigitsValue(w), rest)
  {
    SplitFigure(w, rest);
  }

  /** The text of a two-unit countdown gives it back. */
  lemma ReadTwoUnits(a: nat, u: TimeUnit, b: nat)
    requires u != Second
    ensures ReadCountdown(Render(TwoUnits(a, u, b))) == Some(TwoUnits(a, u, b))
  {
    var w := NatToString(a);
    var rest := UnitName(u) + " " + NatToString(b) + UnitName(NextUnit(u));
    assert Render(TwoUnits(a, u, b)) == w + rest by {
      assert w + UnitName(u) + " " + NatToString(b) + UnitName(NextUnit(u)) == w + rest;
    }
    assert rest[0] == UnitName(u)[0];
    ReadCountdownAfterFigure(w, rest);
    NatToStringRoundTrip(a);
    ReadUnitAfterMajor(a, u, b);
  }

  /** Different countdowns never render alike: the text gives the countdown back. */
  lemma RenderRoundTrip(c: Countdown)
    requires WellFormed(c)
    ensures ReadCountdown(Render(c)) == Some(c)
  {
    match c
    case ClaimableNow =>
    case SecondsOnly(s) => ReadSecondsOnly(s);
    case TwoUnits(a, u, b) => ReadTwoUnits(a, u, b);
  }

  /** Two counts that format alike show the same countdown. */
  lemma FormatTimeInjectiveOnCountdowns(x: int, y: int)
    requires FormatTime(x) == FormatTime(y)
    ensures CountdownOf(x) == CountdownOf(y)
  {
    RenderRoundTrip(CountdownOf(x));
    RenderRoundTrip(CountdownOf(y));
  }

  // ----------------------------------------------------------------- formatMON

  /** 10^15 wei: one thousandth of a MON, the last digit toFixed(3) keeps. */
  const WeiPerThousandth: nat := 1_000_000_000_000_000

  /** The thousandth of a MON nearest to wei, halves rounding up as toFixed does. */
  function NearestThousandth(wei: nat): (k: nat)
    ensures (2 * k - 1) * WeiPerThousandth <= 2 * wei < (2 * k + 1) * WeiPerThousandth
  {
    (wei + WeiPerThousandth / 2) / WeiPerThousandth
  }

  /** (wei / 10^18).toFixed(3), computed exactly. */
  function ToFixed3(wei: nat): string {
    FixedThousandths(NearestThousandth(wei))
  }

  /** formatMON: `'0'` exactly for a missing or zero amount, else three decimals that read as the nearest thousandth of a MON. */
  function FormatMon(amount: Option<nat>): (text: string)
    ensures text == "0" <==> amount.None? || amount.value == 0
    ensures amount.Some? && amount.value != 0 ==>
              ParseFloat(text) == Finite(NearestThousandth(amount.value) as real / 1000.0)
  {
    if amount.None? || amount.value == 0 then "0"
    else
      var text := ToFixed3(amount.value);
      ParseFixedThousandths(NearestThousandth(amount.value));
      assert |text| >= 5;
      text
  }

  /**
   * A non-zero amount is shown as whole MON without leading zeros, a point and
   * exactly three digits, which together count the nearest thousandths.
   */
  lemma FormatMonShape(wei: nat)
    requires wei > 0
    ensures var s := FormatMon(Some(wei));
      && |s| >= 5 && s[|s| - 4] == '.'
      && AllDigits(s[..|s| - 4]) && AllDigits(s[|s| - 3..])
      && (s[0] != '0' || |s| == 5)
      && DigitsValue(s[..|s| - 4]) * 1000 + DigitsValue(s[|s| - 3..]) == NearestThousandth(wei)
  {
    var k := NearestThousandth(wei);
    var w, f := NatToString(k / 1000), ThreeDigits(k % 1000);
    var s := w + "." + f;
    assert s[..|s| - 4] == w && s[|s| - 3..] == f;
    NatToStringRoundTrip(k / 1000);
    ThreeDigitsValue(k % 1000);
  }

  /** An amount in whole thousandths of a MON shows exactly, and reads back as itself. */
  lemma FormatMonRoundTrip(k: nat)
    requires k > 0
    ensures ParseFloat(FormatMon(Some(k * WeiPerThousandth))) == Finite(k as real / 1000.0)
  {
    assert NearestThousandth(k * WeiPerThousandth) == k;
  }
}
