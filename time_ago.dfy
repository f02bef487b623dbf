/**
 * The relative time labels shown next to notifications and recent leads: "Ahora" under a
 * minute, then whole minutes, hours or days, each rounded down. Instants are milliseconds
 * since the epoch, as `Date.getTime` gives them.
 */
module TimeAgo {
  import opened Text

  const MinuteMs: int := 1000 * 60

  /** `Math.floor(diff / 60000)`: Dafny's division by a positive number already rounds down. */
  function MinutesBetween(nowMs: int, thenMs: int): (m: int)
    ensures m * MinuteMs <= nowMs - thenMs < (m + 1) * MinuteMs
  {
    (nowMs - thenMs) / MinuteMs
  }

  /** `formatTimeAgo`: "Ahora" under a minute, otherwise a count followed by the largest unit reached. */
  function FormatTimeAgo(nowMs: int, thenMs: int): (r: string)
    ensures r != ""
    ensures MinutesBetween(nowMs, thenMs) < 1 ==> r == "Ahora"
    ensures var m := MinutesBetween(nowMs, thenMs);
      m >= 1 ==> r[|r| - 1] == (if m < 60 then 'm' else if m < 1440 then 'h' else 'd')
  {
    var m := MinutesBetween(nowMs, thenMs);
    if m < 1 then "Ahora"
    else if m < 60 then NatToString(m) + "m"
    else if m < 1440 then NatToString(m / 60) + "h"
    else NatToString(m / 1440) + "d"
  }

  /** The label's number, when the label is a number followed by its unit. */
  predicate IsCountLabel(r: string)
  {
    |r| >= 2 && r[|r| - 1] in {'m', 'h', 'd'} && forall i :: 0 <= i < |r| - 1 ==> IsDigit(r[i])
  }

  function LabelCount(r: string): nat
    requires IsCountLabel(r)
  {
    DigitsValue(r[..|r| - 1])
  }

  /**
   * What a label says: "Ahora" exactly when less than a minute has passed; otherwise a count
   * with its unit, the count being the elapsed time rounded down to that unit and the unit
   * the largest one that time reaches.
   */
  lemma TimeAgoMeaning(nowMs: int, thenMs: int)
    ensures var r, m := FormatTimeAgo(nowMs, thenMs), MinutesBetween(nowMs, thenMs);
      (r == "Ahora" <==> m < 1) &&
      (m >= 1 ==> IsCountLabel(r)) &&
      (m >= 1 && r[|r| - 1] == 'm' ==> LabelCount(r) == m && m < 60) &&
      (m >= 1 && r[|r| - 1] == 'h' ==> 60 * LabelCount(r) <= m < 60 * (LabelCount(r) + 1) && 1 <= LabelCount(r) < 24) &&
      (m >= 1 && r[|r| - 1] == 'd' ==> 1440 * LabelCount(r) <= m < 1440 * (LabelCount(r) + 1) && LabelCount(r) >= 1)
  {
    var r, m := FormatTimeAgo(nowMs, thenMs), MinutesBetween(nowMs, thenMs);
    if m >= 1 {
      var n: nat := if m < 60 then m else if m < 1440 then m / 60 else m / 1440;
      var u := if m < 60 then 'm' else if m < 1440 then 'h' else 'd';
      assert r == NatToString(n) + [u];
      assert r[..|r| - 1] == NatToString(n);
      NatToStringRoundTrip(n);
    }
  }

  /** A later reading of the same instant never shows a smaller elapsed time. */
  lemma MinutesGrow(nowMs: int, laterMs: int, thenMs: int)
    requires nowMs <= laterMs
    ensures MinutesBetween(nowMs, thenMs) <= MinutesBetween(laterMs, thenMs)
  {
    var a, b := MinutesBetween(nowMs, thenMs), MinutesBetween(laterMs, thenMs);
    assert a * MinuteMs < (b + 1) * MinuteMs;
  }
}
