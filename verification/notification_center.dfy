/**
 * The relative time a notification shows. The clock reading and the locale
 * date text of the notification arrive as parameters.
 */
module NotificationCenter {
  import opened Options
  import opened Strings

  const MsPerMinute: nat := 60000
  const MsPerHour: nat := 3600000
  const JustNow: string := "Just now"

  /**
   * The label for a notification stamped `timeMs`, read at `nowMs` (both in
   * milliseconds). The whole minutes and hours are rounded down, as
   * `Math.floor` does, also for a notification stamped in the future.
   */
  function Label(nowMs: int, timeMs: int, dateText: string): (r: string)
    ensures nowMs - timeMs < MsPerMinute ==> r == JustNow
    ensures MsPerMinute <= nowMs - timeMs < MsPerHour ==>
      && var m := (nowMs - timeMs) / MsPerMinute;
      && 1 <= m <= 59 && r == NatToString(m) + "m ago"
    ensures MsPerHour <= nowMs - timeMs < 24 * MsPerHour ==>
      && var h := (nowMs - timeMs) / MsPerHour;
      && 1 <= h <= 23 && r == NatToString(h) + "h ago"
    ensures nowMs - timeMs >= 24 * MsPerHour ==> r == dateText
  {
    var diff := nowMs - timeMs;
    var minutes := diff / MsPerMinute;
    var hours := diff / MsPerHour;
    if minutes < 1 then JustNow
    else if minutes < 60 then NatToString(minutes) + "m ago"
    else if hours < 24 then NatToString(hours) + "h ago"
    else dateText
  }

  /** The number in a minutes or hours label reads back as the whole minutes or hours elapsed. */
  lemma LabelReadsBack(nowMs: int, timeMs: int, dateText: string)
    requires MsPerMinute <= nowMs - timeMs < 24 * MsPerHour
    ensures var r := Label(nowMs, timeMs, dateText);
      && |r| > 5
      && ParseNat(r[..|r| - 5]) == Some(if nowMs - timeMs < MsPerHour then (nowMs - timeMs) / MsPerMinute else (nowMs - timeMs) / MsPerHour)
      && r[|r| - 5..] == (if nowMs - timeMs < MsPerHour then "m ago" else "h ago")
  {
    var diff := nowMs - timeMs;
    var n := if diff < MsPerHour then diff / MsPerMinute else diff / MsPerHour;
    var suffix := if diff < MsPerHour then "m ago" else "h ago";
    var r := Label(nowMs, timeMs, dateText);
    assert r == NatToString(n) + suffix;
    assert r[..|r| - 5] == NatToString(n);
    ParsePrinted(n);
  }

  /** 'Just now' is shown exactly for differences under a minute (given a date text that is not 'Just now'). */
  lemma JustNowIffUnderAMinute(nowMs: int, timeMs: int, dateText: string)
    requires dateText != JustNow
    ensures Label(nowMs, timeMs, dateText) == JustNow <==> nowMs - timeMs < MsPerMinute
  {
    var diff := nowMs - timeMs;
    var r := Label(nowMs, timeMs, dateText);
    if MsPerMinute <= diff < 24 * MsPerHour {
      var n := if diff < MsPerHour then diff / MsPerMinute else diff / MsPerHour;
      assert r == NatToString(n) + (if diff < MsPerHour then "m ago" else "h ago");
      assert r[|r| - 1] == 'o' != JustNow[|JustNow| - 1];
    }
  }
}
