/**
 * The screens of the game and how a mouse press or the end of a level
 * moves between them: main menu, level select, play, won, lost and the
 * score board. `LEVELS` is an ordered dictionary from names `LEVEL_<n>`
 * to the rectangle of their button and their map.
 */
module States {
  import opened Wrappers
  import opened Text

  /** The six state classes; `Game.current_state` holds an instance of one. */
  datatype Screen = MainMenu | LevelSelect | Play | Win | Lost | Scores

  /**
   * The buttons whose rectangles a press can fall in. Each screen tests
   * its own: start and scores on the main menu, the menu button and one
   * button per level on level select, restart and menu while playing,
   * next and menu when won, restart and menu when lost, menu on the score
   * board.
   */
  datatype Button = Start | ScoresButton | Menu | Restart | Next | LevelButton(name: string)

  /** A pygame event: a mouse press with the buttons under it, or anything else. */
  datatype Event = MouseDown(hit: set<Button>) | OtherEvent

  /** One item of `LEVELS`: its name and the map (the rows of `level_data`). */
  datatype LevelEntry = LevelEntry(name: string, rows: seq<string>)

  /** What `game.level` was built from: `Level(mapa, lvl_idx)`. */
  datatype Built = Built(rows: seq<string>, number: int)

  /** What a handler did besides changing the game: stop the music, or raise. */
  datatype Outcome = Handled(stopsMusic: bool) | Raised(error: Error)

  /** Dictionary keys are unique. */
  predicate DistinctNames(levels: seq<LevelEntry>)
  {
    forall i, j :: 0 <= i < j < |levels| ==> levels[i].name != levels[j].name
  }

  /** `LEVELS.get(key)`, as the map of the entry of that name. */
  function Lookup(levels: seq<LevelEntry>, key: string): (r: Option<seq<string>>)
    ensures r.Some? <==> exists i :: 0 <= i < |levels| && levels[i].name == key
    ensures DistinctNames(levels) ==>
      forall i :: 0 <= i < |levels| && levels[i].name == key ==> r == Some(levels[i].rows)
    decreases |levels|
  {
    if levels == [] then None
    else if levels[0].name == key then Some(levels[0].rows)
    else
      var r := Lookup(levels[1..], key);
      assert forall i :: 1 <= i < |levels| ==> levels[i] == levels[1..][i - 1];
      r
  }

  /** What `int()` accepts once the text is stripped: digits, with at most one sign in front. */
  predicate IntLiteral(t: string) {
    IsDigits(t) || (|t| >= 2 && (t[0] == '+' || t[0] == '-') && IsDigits(t[1..]))
  }

  /**
   * `int(s)` in base 10: surrounding whitespace is ignored, one sign is
   * allowed, and the rest must be decimal digits.
   */
  function ParseInt(s: string): (r: Result<int, Error>)
    ensures r.Success? <==> IntLiteral(Strip(s))
    ensures r.Failure? ==> r.error == ValueError("invalid literal for int() with base 10")
    ensures IsDigits(Strip(s)) ==> r == Success(ParseNat(Strip(s)))
  {
    var t := Strip(s);
    if IsDigits(t) then Success(ParseNat(t))
    else if |t| >= 2 && (t[0] == '+' || t[0] == '-') && IsDigits(t[1..]) then
      var v: int := ParseNat(t[1..]);
      Success(if t[0] == '-' then -v else v)
    else Failure(ValueError("invalid literal for int() with base 10"))
  }

  /** `int(str(i)) == i`. */
  lemma ParseIntToString(i: int)
    ensures ParseInt(IntToString(i)) == Success(i)
  {
    if i >= 0 {
      assert IntToString(i) == NatToString(i);
      ParseIntOfNatString(i);
    } else {
      assert IntToString(i) == "-" + NatToString(-i);
      ParseIntOfNegativeString(i);
    }
  }

  lemma ParseIntOfNatString(n: nat)
    ensures ParseInt(NatToString(n)) == Success(n)
  {
    ParseNatToString(n);
    StripClean(NatToString(n));
  }

  lemma ParseIntOfNegativeString(i: int)
    requires i < 0
    ensures ParseInt("-" + NatToString(-i)) == Success(i)
  {
    var digits := NatToString(-i);
    var s := "-" + digits;
    assert s[1..] == digits && s[|s| - 1] == digits[|digits| - 1];
    StripClean(s);
    assert !IsDigits(s) && IntLiteral(s);
    ParseNatToString(-i);
  }

  /** `int(lvl_name.split('_')[1])`: the number after the first underscore. */
  function LevelNumber(name: string): (r: Result<int, Error>)
    ensures Count(name, '_') == 0 ==> r == Failure(IndexError)
    ensures Count(name, '_') >= 1 ==> r == ParseInt(Split(name, '_')[1])
  {
    var parts := Split(name, '_');
    if |parts| < 2 then Failure(IndexError) else ParseInt(parts[1])
  }

  /** `f"LEVEL_{n}"`, where `n` may still be `None`. */
  function LevelKey(n: Option<int>): (key: string)
    ensures |key| > 6 && key[..6] == "LEVEL_"
  {
    "LEVEL_" + (if n.Some? then IntToString(n.value) else "None")
  }

  /** The number of a level's key parses back from its name. */
  lemma LevelNumberOfKey(n: int)
    ensures LevelNumber(LevelKey(Some(n))) == Success(n)
  {
    LevelKeyPieces(n);
    ParseIntToString(n);
  }

  /** A level's key splits at its one underscore into "LEVEL" and the number. */
  lemma LevelKeyPieces(n: int)
    ensures Split(LevelKey(Some(n)), '_') == ["LEVEL", IntToString(n)]
  {
    IntStringHasNoUnderscore(n);
    OneSeparator("LEVEL", IntToString(n), '_');
    assert LevelKey(Some(n)) == "LEVEL" + ['_'] + IntToString(n);
  }

  /** Two separator-free pieces joined by one separator split back into those two. */
  lemma OneSeparator(head: string, tail: string, sep: char)
    requires sep !in head && sep !in tail
    ensures Split(head + [sep] + tail, sep) == [head, tail]
  {
    SplitNone(head, sep);
    SplitAfterSep(head, tail, sep);
  }

  lemma IntStringHasNoUnderscore(n: int)
    ensures '_' !in IntToString(n)
  {
    var s := IntToString(n);
    if n < 0 {
      assert s[1..] == NatToString(-n);
      assert forall k :: 1 <= k < |s| ==> s[k] == NatToString(-n)[k - 1];
    }
  }

  /** Every name in `LEVELS` is the key `LEVEL_<n>` of the number it parses to. */
  predicate CanonicalNames(levels: seq<LevelEntry>)
  {
    forall i :: 0 <= i < |levels| ==>
      LevelNumber(levels[i].name).Success? && LevelKey(Some(LevelNumber(levels[i].name).value)) == levels[i].name
  }

  /** The names `LEVEL_1`, `LEVEL_2`, ... are canonical. */
  lemma NumberedLevelsCanonical(levels: seq<LevelEntry>)
    requires forall i :: 0 <= i < |levels| ==> levels[i].name == LevelKey(Some(i + 1))
    ensures CanonicalNames(levels)
  {
    forall i | 0 <= i < |levels|
      ensures LevelNumber(levels[i].name) == Success(i + 1)
    {
      LevelNumberOfKey(i + 1);
    }
  }

  /** The first entry, in dictionary order, whose button the press hit; `|levels|` if none. */
  function FirstHit(levels: seq<LevelEntry>, hit: set<Button>): (k: nat)
    ensures k <= |levels|
    ensures k < |levels| ==> LevelButton(levels[k].name) in hit
    ensures forall j :: 0 <= j < k ==> LevelButton(levels[j].name) !in hit
    decreases |levels|
  {
    if levels == [] then 0
    else if LevelButton(levels[0].name) in hit then 0
    else
      var k := FirstHit(levels[1..], hit);
      assert forall j :: 1 <= j < |levels| ==> levels[j] == levels[1..][j - 1];
      1 + k
  }

  class Game {
    /** `LEVELS`, in its insertion order. */
    const levels: seq<LevelEntry>
    var screen: Screen
    var currentLvl: Option<int>
    var level: Option<Built>
    /** The number of `Level` objects built so far. */
    var levelsBuilt: nat

    /**
     * While a level is on screen (playing, won or lost), `level` was built
     * from the map `LEVELS` holds under the key of `current_lvl`, so that
     * restarting builds the same level again. The number is always set
     * and is the one the level was built with; the map is the one under
     * its key when the names are canonical. Dictionary keys are distinct.
     */
    predicate Valid()
      reads this
    {
      DistinctNames(levels) &&
      (OnLevel() ==> currentLvl.Some? && level.Some? && level.value.number == currentLvl.value) &&
      (OnLevel() && CanonicalNames(levels) ==> Lookup(levels, LevelKey(currentLvl)) == Some(level.value.rows))
    }

    /** A level is on screen: playing, won or lost. */
    predicate OnLevel()
      reads this
    {
      screen == Play || screen == Win || screen == Lost
    }

    /** `Game()`: the main menu, no level chosen and none built. */
    constructor (levels: seq<LevelEntry>)
      requires DistinctNames(levels)
      ensures Valid()
      ensures this.levels == levels && screen == MainMenu && currentLvl == None && level == None && levelsBuilt == 0
    {
      this.levels := levels;
      screen := MainMenu;
      currentLvl := None;
      level := None;
      levelsBuilt := 0;
    }

    /** `Level(mapa, n)` assigned to `game.level`. */
    method Build(rows: seq<string>, n: int)
      modifies this
      ensures level == Some(Built(rows, n)) && levelsBuilt == old(levelsBuilt) + 1
      ensures screen == old(screen) && currentLvl == old(currentLvl)
    {
      level := Some(Built(rows, n));
      levelsBuilt := levelsBuilt + 1;
    }

    /** What the main menu's handler leaves. */
    twostate predicate MainMenuHandled(e: Event, o: Outcome)
      reads this
    {
      && (o == Handled(false))
      && (screen == (if e.MouseDown? && Start in e.hit then LevelSelect
                     else if e.MouseDown? && ScoresButton in e.hit then Scores
                     else MainMenu))
      && (currentLvl == old(currentLvl) && level == old(level) && levelsBuilt == old(levelsBuilt))
    }

    /** `MainMenuState.handle_input`: start opens level select, otherwise scores opens the board. */
    method MainMenuInput(e: Event) returns (o: Outcome)
      requires Valid() && screen == MainMenu
      modifies this
      ensures Valid() && MainMenuHandled(e, o)
    {
      if e.MouseDown? {
        if Start in e.hit {
          screen := LevelSelect;
        } else if ScoresButton in e.hit {
          screen := Scores;
        }
      }
      return Handled(false);
    }

    /** What the level select screen's handler leaves. */
    twostate predicate LevelSelectHandled(e: Event, o: Outcome)
      reads this
    {
      && (e.OtherEvent? ==>
          o == Handled(false) && screen == LevelSelect &&
          currentLvl == old(currentLvl) && level == old(level) && levelsBuilt == old(levelsBuilt))
      && (e.MouseDown? && FirstHit(levels, e.hit) == |levels| ==>
          o == Handled(false) && screen == (if Menu in e.hit then MainMenu else LevelSelect) &&
          currentLvl == old(currentLvl) && level == old(level) && levelsBuilt == old(levelsBuilt))
      && (e.MouseDown? && FirstHit(levels, e.hit) < |levels| ==>
          var entry := levels[FirstHit(levels, e.hit)];
          match LevelNumber(entry.name)
          case Failure(err) =>
            o == Raised(err) && screen == (if Menu in e.hit then MainMenu else LevelSelect) &&
            currentLvl == old(currentLvl) && level == old(level) && levelsBuilt == old(levelsBuilt)
          case Success(n) =>
            o == Handled(false) && screen == Play && currentLvl == Some(n) &&
            level == Some(Built(entry.rows, n)) && levelsBuilt == old(levelsBuilt) + 1)
    }

    /**
     * `LevelSelectState.handle_input`: the menu button returns to the main
     * menu, and then (there is no `else`) the first level whose button was
     * hit is parsed, chosen, built and played. A name that does not parse
     * raises before anything of the level is set.
     */
    method LevelSelectInput(e: Event) returns (o: Outcome)
      requires Valid() && screen == LevelSelect
      modifies this
      ensures Valid() && LevelSelectHandled(e, o)
    {
      if e.OtherEvent? {
        return Handled(false);
      }
      if Menu in e.hit {
        screen := MainMenu;
      }
      var i := 0;
      while i < |levels|
        invariant 0 <= i <= |levels|
        invariant forall j :: 0 <= j < i ==> LevelButton(levels[j].name) !in e.hit
        invariant screen == (if Menu in e.hit then MainMenu else LevelSelect)
        invariant currentLvl == old(currentLvl) && level == old(level) && levelsBuilt == old(levelsBuilt)
      {
        if LevelButton(levels[i].name) in e.hit {
          assert FirstHit(levels, e.hit) == i;
          var parsed := LevelNumber(levels[i].name);
          if parsed.Failure? {
            return Raised(parsed.error);
          }
          var n := parsed.value;
          currentLvl := Some(n);
          Build(levels[i].rows, n);
          screen := Play;
          if CanonicalNames(levels) {
            assert LevelKey(currentLvl) == levels[i].name;
          }
          return Handled(false);
        }
        i := i + 1;
      }
      assert FirstHit(levels, e.hit) == |levels|;
      return Handled(false);
    }

    /**
     * Restart, shared by the play and lost screens: look up
     * `LEVELS[f"LEVEL_{current_lvl}"]` (a `KeyError` when absent), build
     * that map under the same number and play it.
     */
    method RestartLevel() returns (o: Outcome)
      requires Valid() && (screen == Play || screen == Lost)
      modifies this
      ensures Valid()
      ensures Lookup(levels, LevelKey(old(currentLvl))).None? ==>
        o == Raised(KeyError(LevelKey(old(currentLvl)))) &&
        screen == old(screen) && level == old(level) && levelsBuilt == old(levelsBuilt)
      ensures Lookup(levels, LevelKey(old(currentLvl))).Some? ==>
        o == Handled(false) && screen == Play &&
        level == Some(Built(Lookup(levels, LevelKey(old(currentLvl))).value, old(currentLvl).value)) &&
        levelsBuilt == old(levelsBuilt) + 1
      ensures currentLvl == old(currentLvl)
      ensures CanonicalNames(levels) ==> o == Handled(false) && level == old(level)
    {
      var key := LevelKey(currentLvl);
      var rows := Lookup(levels, key);
      if rows.None? {
        return Raised(KeyError(key));
      }
      Build(rows.value, currentLvl.value);
      screen := Play;
      return Handled(false);
    }

    /** What the play screen's handler leaves. */
    twostate predicate PlayHandled(e: Event, o: Outcome)
      reads this
    {
      && (currentLvl == old(currentLvl))
      && (e.MouseDown? && Restart in e.hit && CanonicalNames(levels) ==>
          o == Handled(false) && screen == Play && level == old(level) && levelsBuilt == old(levelsBuilt) + 1)
      && (e.MouseDown? && Restart in e.hit ==>
          old(currentLvl).Some? &&
          var rows := Lookup(levels, LevelKey(old(currentLvl)));
          if rows.None? then
            o == Raised(KeyError(LevelKey(old(currentLvl)))) && level == old(level) && screen == Play
          else
            o == Handled(false) && screen == Play &&
            level == Some(Built(rows.value, old(currentLvl).value)) && levelsBuilt == old(levelsBuilt) + 1)
      && (e.MouseDown? && Restart !in e.hit && Menu in e.hit ==>
          o == Handled(true) && screen == MainMenu && level == old(level) && levelsBuilt == old(levelsBuilt))
      && (!(e.MouseDown? && (Restart in e.hit || Menu in e.hit)) ==>
          o == Handled(false) && screen == Play && level == old(level) && levelsBuilt == old(levelsBuilt))
    }

    /** `PlayState.handle_input`: restart the level, or stop the music and go to the main menu. */
    method PlayInput(e: Event) returns (o: Outcome)
      requires Valid() && screen == Play
      modifies this
      ensures Valid() && PlayHandled(e, o)
    {
      if e.MouseDown? {
        if Restart in e.hit {
          o := RestartLevel();
          return;
        } else if Menu in e.hit {
          screen := MainMenu;
          return Handled(true);
        }
      }
      return Handled(false);
    }

    /** `PlayState.update`, after `level.update`: once the level stops, show won or lost. */
    method PlayUpdate(running: bool, won: bool)
      requires Valid() && screen == Play
      modifies this
      ensures Valid()
      ensures screen == (if running then Play else if won then Win else Lost)
      ensures currentLvl == old(currentLvl) && level == old(level) && levelsBuilt == old(levelsBuilt)
    {
      if !running {
        if won {
          screen := Win;
        } else {
          screen := Lost;
        }
      }
    }

    /** What the won screen's handler leaves. */
    twostate predicate WinHandled(e: Event, o: Outcome)
      reads this
    {
      && (e.MouseDown? && Next in e.hit ==>
          old(currentLvl).Some? &&
          var next := old(currentLvl).value + 1;
          var rows := Lookup(levels, LevelKey(Some(next)));
          if rows.Some? then
            o == Handled(false) && screen == Play && currentLvl == Some(next) &&
            level == Some(Built(rows.value, next)) && levelsBuilt == old(levelsBuilt) + 1
          else
            o == Handled(true) && screen == MainMenu && currentLvl == old(currentLvl) &&
            level == old(level) && levelsBuilt == old(levelsBuilt))
      && (e.MouseDown? && Next !in e.hit && Menu in e.hit ==>
          o == Handled(true) && screen == MainMenu &&
          currentLvl == old(currentLvl) && level == old(level) && levelsBuilt == old(levelsBuilt))
      && (!(e.MouseDown? && (Next in e.hit || Menu in e.hit)) ==>
          o == Handled(false) && screen == Win &&
          currentLvl == old(currentLvl) && level == old(level) && levelsBuilt == old(levelsBuilt))
    }

    /**
     * `GameOverWinState.handle_input`: next plays `LEVEL_<n+1>` when
     * `LEVELS` has it, otherwise stops the music and returns to the main
     * menu; the menu button stops the music and returns there too.
     */
    method WinInput(e: Event) returns (o: Outcome)
      requires Valid() && screen == Win
      modifies this
      ensures Valid() && WinHandled(e, o)
    {
      if e.MouseDown? {
        if Next in e.hit {
          var next := currentLvl.value + 1;
          var rows := Lookup(levels, LevelKey(Some(next)));
          if rows.Some? {
            currentLvl := Some(next);
            Build(rows.value, next);
            screen := Play;
            return Handled(false);
          }
          screen := MainMenu;
          return Handled(true);
        } else if Menu in e.hit {
          screen := MainMenu;
          return Handled(true);
        }
      }
      return Handled(false);
    }

    /** What the lost screen's handler leaves. */
    twostate predicate LostHandled(e: Event, o: Outcome)
      reads this
    {
      && (currentLvl == old(currentLvl))
      && (e.MouseDown? && Restart in e.hit && CanonicalNames(levels) ==>
          o == Handled(false) && screen == Play && level == old(level) && levelsBuilt == old(levelsBuilt) + 1)
      && (e.MouseDown? && Restart in e.hit ==>
          old(currentLvl).Some? &&
          var rows := Lookup(levels, LevelKey(old(currentLvl)));
          if rows.None? then
            o == Raised(KeyError(LevelKey(old(currentLvl)))) && level == old(level) && screen == Lost
          else
            o == Handled(false) && screen == Play &&
            level == Some(Built(rows.value, old(currentLvl).value)) && levelsBuilt == old(levelsBuilt) + 1)
      && (e.MouseDown? && Restart !in e.hit && Menu in e.hit ==>
          o == Handled(true) && screen == MainMenu && level == old(level) && levelsBuilt == old(levelsBuilt))
      && (!(e.MouseDown? && (Restart in e.hit || Menu in e.hit)) ==>
          o == Handled(false) && screen == Lost && level == old(level) && levelsBuilt == old(levelsBuilt))
    }

    /** `GameOverLostState.handle_input`: restart the level, or stop the music and go to the main menu. */
    method LostInput(e: Event) returns (o: Outcome)
      requires Valid() && screen == Lost
      modifies this
      ensures Valid() && LostHandled(e, o)
    {
      if e.MouseDown? {
        if Restart in e.hit {
          o := RestartLevel();
          return;
        } else if Menu in e.hit {
          screen := MainMenu;
          return Handled(true);
        }
      }
      return Handled(false);
    }

    /** What the score board's handler leaves. */
    twostate predicate ScoresHandled(e: Event, o: Outcome)
      reads this
    {
      && (o == Handled(false))
      && (screen == (if e.MouseDown? && Menu in e.hit then MainMenu else Scores))
      && (currentLvl == old(currentLvl) && level == old(level) && levelsBuilt == old(levelsBuilt))
    }

    /** `Scores_State.handle_input`: the menu button returns to the main menu. */
    method ScoresInput(e: Event) returns (o: Outcome)
      requires Valid() && screen == Scores
      modifies this
      ensures Valid() && ScoresHandled(e, o)
    {
      if e.MouseDown? && Menu in e.hit {
        screen := MainMenu;
      }
      return Handled(false);
    }

    /** `game.current_state.handle_input(event)`: the current screen's handler. */
    method HandleInput(e: Event) returns (o: Outcome)
      requires Valid()
      modifies this
      ensures Valid()
      ensures old(screen) == MainMenu ==> MainMenuHandled(e, o)
      ensures old(screen) == LevelSelect ==> LevelSelectHandled(e, o)
      ensures old(screen) == Play ==> PlayHandled(e, o)
      ensures old(screen) == Win ==> WinHandled(e, o)
      ensures old(screen) == Lost ==> LostHandled(e, o)
      ensures old(screen) == Scores ==> ScoresHandled(e, o)
      ensures e.OtherEvent? ==>
        o == Handled(false) && screen == old(screen) &&
        currentLvl == old(currentLvl) && level == old(level) && levelsBuilt == old(levelsBuilt)
    {
      match screen
      case MainMenu => o := MainMenuInput(e);
      case LevelSelect => o := LevelSelectInput(e);
      case Play => o := PlayInput(e);
      case Win => o := WinInput(e);
      case Lost => o := LostInput(e);
      case Scores => o := ScoresInput(e);
    }

    /** `game.current_state.update(keys)`: only the play screen reacts, to the level's flags. */
    method Update(running: bool, won: bool)
      requires Valid()
      modifies this
      ensures Valid()
      ensures old(screen) == Play ==> screen == (if running then Play else if won then Win else Lost)
      ensures old(screen) != Play ==> screen == old(screen)
      ensures currentLvl == old(currentLvl) && level == old(level) && levelsBuilt == old(levelsBuilt)
    {
      if screen == Play {
        PlayUpdate(running, won);
      }
    }
  }
}
