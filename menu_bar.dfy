/**
 * The bar under the board: the level number and the time left.
 */
module MenuBar {
  import Text

  class MenuBar {
    const level: int
    var timeLeft: int

    /** `MenuBar(level)`: sixty seconds left. */
    constructor (level: int)
      ensures this.level == level && timeLeft == 60
    {
      this.level := level;
      timeLeft := 60;
    }

    /** `update_timer` replaces the time left and nothing else. */
    method UpdateTimer(timeLeft: int)
      modifies this
      ensures this.timeLeft == timeLeft
    {
      this.timeLeft := timeLeft;
    }

    /** The label drawn at the left: "LEVEL " and the level number. */
    function LevelText(): (s: string)
      ensures |s| > 6 && s[..6] == "LEVEL " && s[6..] == Text.IntToString(level)
    {
      "LEVEL " + Text.IntToString(level)
    }

    /** The clock drawn at the right, as `MM:SS`. */
    function TimeText(): (s: string)
      reads this
      ensures 0 <= timeLeft < 6000 ==>
        |s| == 5 && Text.IsDigits(s[..2]) && Text.IsDigits(s[3..]) &&
        Text.ParseNat(s[..2]) * 60 + Text.ParseNat(s[3..]) == timeLeft
    {
      Text.MinSecReadsBack(if 0 <= timeLeft < 6000 then timeLeft else 0);
      Text.MinSec(timeLeft)
    }
  }
}
