/**
 * The two text helpers of the AngularJS controller (src/app.ts): the clock
 * shown during a game and the banner for a run of matches.
 */
module Display {
  import Text

  /**
   * `formatTime`: whole minutes, a colon, then the remaining seconds padded to
   * two digits. Reading the text back gives the minutes and the seconds again.
   */
  function FormatTime(seconds: nat): (s: string)
    ensures |s| >= 4 && s[|s| - 3] == ':'
    ensures Text.AllDigits(s[..|s| - 3]) && Text.AllDigits(s[|s| - 2..])
    ensures Text.DigitsValue(s[|s| - 2..]) < 60
    ensures Text.DigitsValue(s[..|s| - 3]) * 60 + Text.DigitsValue(s[|s| - 2..]) == seconds
  {
    Text.NatToStringRoundTrip(seconds / 60);
    var minutes := Text.NatToString(seconds / 60);
    var rest := Text.PadTwo(seconds % 60);
    var s := minutes + ":" + rest;
    assert s[..|s| - 3] == minutes;
    assert s[|s| - 2..] == rest;
    s
  }

  const Fire: char := '\U{1F525}'
  const Bolt: char := '⚡'

  /** `getStreakMessage`: a legendary banner from five matches in a row, a plain one from three, nothing below. */
  function StreakMessage(streakCount: nat): (m: string)
    ensures m == "" <==> streakCount < 3
    ensures streakCount >= 5 ==> m[0] == Fire && m[|m| - 1] == Fire
    ensures 3 <= streakCount < 5 ==> m[0] == Bolt && m[|m| - 1] == Bolt
  {
    if streakCount >= 5 then [Fire] + " LEGENDARY " + Text.NatToString(streakCount) + "x STREAK! " + [Fire]
    else if streakCount >= 3 then [Bolt] + " " + Text.NatToString(streakCount) + "x STREAK! " + [Bolt]
    else ""
  }

  /** The banner shows the streak's length in decimal, right after its opening words. */
  lemma StreakMessageShowsCount(streakCount: nat)
    requires streakCount >= 3
    ensures var m := StreakMessage(streakCount);
      var at := if streakCount >= 5 then 12 else 2;
      var d := |Text.NatToString(streakCount)|;
      && at + d <= |m| && Text.AllDigits(m[at..at + d]) && Text.DigitsValue(m[at..at + d]) == streakCount
  {
    var m := StreakMessage(streakCount);
    var at := if streakCount >= 5 then 12 else 2;
    var n := Text.NatToString(streakCount);
    assert m[at..at + |n|] == n;
    Text.NatToStringRoundTrip(streakCount);
  }
}
