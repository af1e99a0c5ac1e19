/**
 * `formatTimeRemaining` of app.js: the text shown in the rate-limit countdown, and a
 * reader for that text against which the formatter is proved.
 */
module Countdown {
  import opened Wrappers
  import opened Text

  /** The plural suffix: `n !== 1 ? 's' : ''`. */
  function Plural(n: int): string {
    if n != 1 then "s" else ""
  }

  /** `${n} unit${plural}`. */
  function Quantity(n: int, unit: string): string {
    IntToString(n) + " " + unit + Plural(n)
  }

  /** Below a minute: seconds only. Below an hour: minutes, then the remaining seconds
      unless there are none. Otherwise: hours, then the remaining whole minutes unless
      there are none; seconds are never shown. For a non-negative time, reading the
      text back gives the time shown (all of it below an hour, truncated to whole
      minutes from an hour on), and every unit agrees in number with its count. */
  function FormatTimeRemaining(seconds: int): (text: string)
    ensures seconds >= 0 ==>
              ReadDuration(text) == Some(if seconds < 3600 then seconds else seconds - seconds % 60)
    ensures seconds >= 0 ==> Units(text) == ShownUnits(seconds)
  {
    if seconds < 60 then
      OneQuantityRead(seconds, "second");
      Quantity(seconds, "second")
    else if seconds < 3600 then
      var minutes, remainingSeconds := seconds / 60, seconds % 60;
      MinutesAndSeconds(seconds);
      if remainingSeconds == 0 then
        OneQuantityRead(minutes, "minute");
        Quantity(minutes, "minute")
      else
        TwoQuantitiesRead(minutes, "minute", remainingSeconds, "second");
        Quantity(minutes, "minute") + " " + Quantity(remainingSeconds, "second")
    else
      var hours, minutes := seconds / 3600, (seconds % 3600) / 60;
      HoursAndMinutes(seconds);
      if minutes == 0 then
        OneQuantityRead(hours, "hour");
        Quantity(hours, "hour")
      else
        TwoQuantitiesRead(hours, "hour", minutes, "minute");
        Quantity(hours, "hour") + " " + Quantity(minutes, "minute")
  }

  /** The units shown for a time of `s` seconds. */
  function ShownUnits(s: int): seq<string> {
    if s < 60 then ["second"]
    else if s < 3600 then (if s % 60 == 0 then ["minute"] else ["minute", "second"])
    else if (s % 3600) / 60 == 0 then ["hour"] else ["hour", "minute"]
  }

  // ------------------------------------------------------------------ reader

  function UnitSeconds(unit: string): Option<nat> {
    if unit == "second" then Some(1)
    else if unit == "minute" then Some(60)
    else if unit == "hour" then Some(3600)
    else None
  }

  /** A unit word without its plural `s`. */
  function Stem(word: string): string {
    if |word| > 0 && word[|word| - 1] == 's' then word[..|word| - 1] else word
  }

  /**
   * Reads `n unit`, insisting that the number has no leading zero and that the
   * unit is plural exactly when `n` is not 1.
   */
  function ReadQuantity(num: string, word: string): Option<nat> {
    if |num| > 1 && num[0] == '0' then None
    else match ParseNat(num)
    case None => None
    case Some(n) =>
      if (n == 1) != (Stem(word) == word) then None
      else match UnitSeconds(Stem(word))
        case None => None
        case Some(u) => Some(n * u)
  }

  /** Reads one or two quantities separated by spaces into a number of seconds. */
  function ReadDuration(text: string): Option<nat> {
    var t := Split(text, ' ');
    if |t| == 2 then ReadQuantity(t[0], t[1])
    else if |t| == 4 then
      match (ReadQuantity(t[0], t[1]), ReadQuantity(t[2], t[3]))
      case (Some(a), Some(b)) =>
        // the second quantity must be smaller than one of the first one's units
        (match UnitSeconds(Stem(t[1]))
         case Some(first) => if b < first then Some(a + b) else None
         case None => None)
      case _ => None
    else None
  }

  /** The units a duration text names, without plural endings. */
  function Units(text: string): seq<string> {
    var t := Split(text, ' ');
    if |t| == 2 then [Stem(t[1])] else if |t| == 4 then [Stem(t[1]), Stem(t[3])] else []
  }

  // ------------------------------------------------------------------ proofs

  lemma QuantityReads(n: nat, unit: string)
    requires unit in ["second", "minute", "hour"]
    ensures Split(Quantity(n, unit), ' ') == [NatToString(n), unit + Plural(n)]
    ensures Stem(unit + Plural(n)) == unit
    ensures ReadQuantity(NatToString(n), unit + Plural(n)) == Some(n * UnitSeconds(unit).value)
  {
    var d, w := NatToString(n), unit + Plural(n);
    assert ' ' !in d by {
      forall i | 0 <= i < |d| ensures d[i] != ' ' {
        assert IsDigit(d[i]);
      }
    }
    assert ' ' !in w;
    assert Quantity(n, unit) == d + [' '] + w;
    SplitAtSeparator(d, w, ' ');
    SplitWithoutSeparator(d, ' ');
    SplitWithoutSeparator(w, ' ');
    ParseNatToString(n);
    if n != 1 {
      assert w[..|w| - 1] == unit;
    }
  }

  lemma TwoQuantities(a: string, b: string)
    requires |Split(a, ' ')| == 2 && |Split(b, ' ')| == 2
    ensures Split(a + " " + b, ' ') == Split(a, ' ') + Split(b, ' ')
  {
    assert a + " " + b == a + [' '] + b;
    SplitAtSeparator(a, b, ' ');
  }

  lemma MinutesAndSeconds(s: nat)
    requires 60 <= s < 3600
    ensures s == (s / 60) * 60 + s % 60
  {
  }

  lemma HoursAndMinutes(s: nat)
    requires s >= 3600
    ensures s - s % 60 == (s / 3600) * 3600 + ((s % 3600) / 60) * 60
  {
    var h, r := s / 3600, s % 3600;
    var m, q := r / 60, r % 60;
    assert s == h * 3600 + r;
    assert r == m * 60 + q;
    assert s == (h * 60 + m) * 60 + q;
    assert s % 60 == q;
  }

  /** A single quantity reads back as its number of seconds. */
  lemma OneQuantityRead(n: int, unit: string)
    requires unit in ["second", "minute", "hour"]
    ensures n >= 0 ==> ReadDuration(Quantity(n, unit)) == Some(n * UnitSeconds(unit).value)
    ensures n >= 0 ==> Units(Quantity(n, unit)) == [unit]
  {
    if n >= 0 {
      QuantityReads(n, unit);
    }
  }

  /** The four tokens of two quantities separated by a space. */
  lemma TwoQuantitiesTokens(a: nat, u: string, b: nat, v: string)
    requires u in ["second", "minute", "hour"] && v in ["second", "minute", "hour"]
    ensures Split(Quantity(a, u) + " " + Quantity(b, v), ' ') ==
              [NatToString(a), u + Plural(a), NatToString(b), v + Plural(b)]
  {
    QuantityReads(a, u);
    QuantityReads(b, v);
    TwoQuantities(Quantity(a, u), Quantity(b, v));
  }

  /**
   * Two quantities separated by a space read back as the sum of their seconds,
   * provided the second is less than one of the first one's units.
   */
  lemma TwoQuantitiesRead(a: nat, u: string, b: nat, v: string)
    requires u in ["second", "minute", "hour"] && v in ["second", "minute", "hour"]
    ensures ReadDuration(Quantity(a, u) + " " + Quantity(b, v)) ==
              if b * UnitSeconds(v).value < UnitSeconds(u).value
              then Some(a * UnitSeconds(u).value + b * UnitSeconds(v).value)
              else None
    ensures Units(Quantity(a, u) + " " + Quantity(b, v)) == [u, v]
  {
    var text := Quantity(a, u) + " " + Quantity(b, v);
    QuantityReads(a, u);
    QuantityReads(b, v);
    TwoQuantitiesTokens(a, u, b, v);
    ReadTwoQuantities(text, a, u, b, v);
  }

  /** How a four-token text reads, once each of its quantities has been read. */
  lemma ReadTwoQuantities(text: string, a: nat, u: string, b: nat, v: string)
    requires u in ["second", "minute", "hour"] && v in ["second", "minute", "hour"]
    requires |Split(text, ' ')| == 4 && Stem(Split(text, ' ')[1]) == u
    requires ReadQuantity(Split(text, ' ')[0], Split(text, ' ')[1]) == Some(a * UnitSeconds(u).value)
    requires ReadQuantity(Split(text, ' ')[2], Split(text, ' ')[3]) == Some(b * UnitSeconds(v).value)
    ensures ReadDuration(text) ==
              if b * UnitSeconds(v).value < UnitSeconds(u).value
              then Some(a * UnitSeconds(u).value + b * UnitSeconds(v).value)
              else None
  {
  }
}
