/**
 * The score board: reading `best_times.txt` into a map from level number
 * to best time in seconds, and the text and position of each of the
 * twelve entries the board draws.
 */
module ScoreBoard {
  import opened Wrappers
  import opened Settings
  import opened Text

  const TotalLevels: int := 12

  /**
   * What one line of the file contributes: nothing (no comma, or a part
   * that is not a number), one `level -> seconds` entry, or the
   * `ValueError` of unpacking more than two comma-separated parts.
   */
  function ReadLine(line: string): (r: Result<Option<(nat, nat)>, Error>)
  {
    if ',' !in line then Success(None)
    else
      var parts := Split(Strip(line), ',');
      if |parts| != 2 then Failure(ValueError("too many values to unpack (expected 2)"))
      else
        var lvl, sec := parts[0], Strip(parts[1]);
        if IsDigits(lvl) && IsDigits(sec) then Success(Some((ParseNat(lvl), ParseNat(sec))))
        else Success(None)
  }

  /** The line stores the entry `level -> seconds`. */
  predicate Stores(line: string, level: nat, seconds: nat)
  {
    ReadLine(line) == Success(Some((level, seconds)))
  }

  type Read = Result<Option<(nat, nat)>, Error>

  /** What each line contributes, in file order. */
  function Reads(lines: seq<string>): (rs: seq<Read>)
    ensures |rs| == |lines| && forall i :: 0 <= i < |lines| ==> rs[i] == ReadLine(lines[i])
  {
    seq(|lines|, i requires 0 <= i < |lines| => ReadLine(lines[i]))
  }

  /** Filling the dictionary from the lines' contributions, stopping at the first error. */
  function Collect(rs: seq<Read>): Result<map<nat, nat>, Error>
    decreases |rs|
  {
    if rs == [] then Success(map[])
    else
      match Collect(rs[..|rs| - 1])
      case Failure(e) => Failure(e)
      case Success(times) =>
        match rs[|rs| - 1]
        case Failure(e) => Failure(e)
        case Success(None) => Success(times)
        case Success(Some(entry)) => Success(times[entry.0 := entry.1])
  }

  /** The dictionary `load_best_times` builds from the file's lines. */
  function BestTimes(lines: seq<string>): Result<map<nat, nat>, Error>
  {
    Collect(Reads(lines))
  }

  /**
   * `load_best_times`: `file` is the file's lines, or `None` when it does
   * not exist. Lines are read in order; the first line that raises ends
   * the load with that error.
   */
  method LoadBestTimes(file: Option<seq<string>>) returns (r: Result<map<nat, nat>, Error>)
    ensures file.None? ==> r == Success(map[])
    ensures file.Some? ==> r == BestTimes(file.value)
  {
    var times: map<nat, nat> := map[];
    if file.None? {
      return Success(times);
    }
    var lines := file.value;
    ghost var rs := Reads(lines);
    var i := 0;
    while i < |lines|
      invariant 0 <= i <= |lines|
      invariant Collect(rs[..i]) == Success(times)
    {
      assert rs[..i + 1][..i] == rs[..i];
      var read := ReadLine(lines[i]);
      if read.Failure? {
        FailureSticks(rs, i + 1);
        return Failure(read.error);
      }
      if read.value.Some? {
        times := times[read.value.value.0 := read.value.value.1];
      }
      i := i + 1;
    }
    assert rs[..i] == rs;
    return Success(times);
  }

  /** Once a prefix of the contributions raises, the whole load raises the same error. */
  lemma {:induction false} FailureSticks(rs: seq<Read>, k: nat)
    requires k <= |rs| && Collect(rs[..k]).Failure?
    ensures Collect(rs) == Collect(rs[..k])
    decreases |rs| - k
  {
    if k == |rs| {
      assert rs[..k] == rs;
    } else {
      assert rs[..|rs| - 1][..k] == rs[..k];
      FailureSticks(rs[..|rs| - 1], k);
    }
  }

  /** A line raises exactly when it holds more than one comma. */
  lemma ReadLineFails(line: string)
    ensures ReadLine(line).Failure? <==> Count(line, ',') > 1
  {
    CountPositive(line, ',');
    StripCount(line, ',');
  }

  /**
   * The fields of a score line: once stripped, the line is the level
   * digits, one comma, and the seconds, which are digits after stripping.
   */
  predicate Fields(line: string, lvl: string, sec: string, level: nat, seconds: nat)
  {
    Strip(line) == lvl + "," + sec && ',' !in sec &&
    IsDigits(lvl) && IsDigits(Strip(sec)) && ParseNat(lvl) == level && ParseNat(Strip(sec)) == seconds
  }

  /** A line stores an entry exactly when it splits into such fields. */
  lemma ReadLineStores(line: string, level: nat, seconds: nat)
    ensures Stores(line, level, seconds) <==> exists lvl, sec :: Fields(line, lvl, sec, level, seconds)
  {
    if Stores(line, level, seconds) {
      StoresFields(line, level, seconds);
    }
    if exists lvl, sec :: Fields(line, lvl, sec, level, seconds) {
      var lvl, sec :| Fields(line, lvl, sec, level, seconds);
      FieldsStore(line, lvl, sec, level, seconds);
    }
  }

  /** The two pieces `split(',')` gives a storing line are its fields. */
  lemma StoresFields(line: string, level: nat, seconds: nat)
    requires Stores(line, level, seconds)
    ensures var parts := Split(Strip(line), ','); Fields(line, parts[0], parts[1], level, seconds)
  {
    var stripped := Strip(line);
    var parts := Split(stripped, ',');
    SplitJoin(stripped, ',');
    assert Join(parts, ',') == parts[0] + [','] + parts[1];
  }

  /** A line made of such fields splits into them and stores the entry. */
  lemma FieldsStore(line: string, lvl: string, sec: string, level: nat, seconds: nat)
    requires Fields(line, lvl, sec, level, seconds)
    ensures Stores(line, level, seconds)
  {
    var stripped := Strip(line);
    assert ',' in line by {
      assert stripped[|lvl|] == ',';
      CountPositive(stripped, ',');
      StripCount(line, ',');
      CountPositive(line, ',');
    }
    assert Split(stripped, ',') == [lvl, sec] by {
      assert ',' !in lvl;
      assert stripped == lvl + [','] + sec;
      SplitNone(lvl, ',');
      SplitAfterSep(lvl, sec, ',');
    }
  }

  /** Stripping `body + "\n"` gives `body` back when `body` has clean ends. */
  lemma StripNewline(body: string)
    requires body != [] && !IsSpace(body[0]) && !IsSpace(body[|body| - 1])
    ensures Strip(body + "\n") == body
  {
    var line := body + "\n";
    assert line[0] == body[0];
    assert Lead(line) == 0;
    assert line[..|line| - 1] == body;
    assert Trail(line) == 1;
  }

  /** The line `"<level>,<seconds>\n"` reads back as that entry. */
  lemma ReadLineRoundTrip(level: nat, seconds: nat)
    ensures Stores(NatToString(level) + "," + NatToString(seconds) + "\n", level, seconds)
  {
    var a, b := NatToString(level), NatToString(seconds);
    RoundTripFields(a, b, level, seconds);
    ReadLineStores(a + "," + b + "\n", level, seconds);
  }

  /** The fields of a written score line are the two numbers' digits. */
  lemma RoundTripFields(a: string, b: string, level: nat, seconds: nat)
    requires a == NatToString(level) && b == NatToString(seconds)
    ensures Fields(a + "," + b + "\n", a, b, level, seconds)
  {
    var body := a + "," + b;
    assert body[0] == a[0] && body[|body| - 1] == b[|b| - 1];
    StripNewline(body);
    StripClean(b);
    ParseNatToString(level);
    ParseNatToString(seconds);
    assert ',' !in b by {
      assert forall k :: 0 <= k < |b| ==> IsDigit(b[k]);
    }
  }

  /** Collecting fails exactly when some contribution is an error. */
  lemma {:induction false} CollectFails(rs: seq<Read>)
    ensures Collect(rs).Failure? <==> exists i :: 0 <= i < |rs| && rs[i].Failure?
    decreases |rs|
  {
    if rs != [] {
      var init := rs[..|rs| - 1];
      CollectFails(init);
      assert forall i :: 0 <= i < |init| ==> init[i] == rs[i];
    }
  }

  /** Loading fails exactly when some line holds more than one comma. */
  lemma BestTimesFails(lines: seq<string>)
    ensures BestTimes(lines).Failure? <==> exists i :: 0 <= i < |lines| && Count(lines[i], ',') > 1
  {
    CollectFails(Reads(lines));
    forall i | 0 <= i < |lines|
      ensures ReadLine(lines[i]).Failure? <==> Count(lines[i], ',') > 1
    {
      ReadLineFails(lines[i]);
    }
  }

  /** A collected level is one some contribution stores. */
  lemma {:induction false} CollectHas(rs: seq<Read>, level: nat)
    requires Collect(rs).Success?
    ensures level in Collect(rs).value <==>
      exists i, s :: 0 <= i < |rs| && rs[i] == Success(Some((level, s)))
    decreases |rs|
  {
    if rs != [] {
      var n := |rs| - 1;
      var init := rs[..n];
      CollectHas(init, level);
      assert forall i :: 0 <= i < n ==> init[i] == rs[i];
    }
  }

  /** A collected level holds the time of the last contribution storing it. */
  lemma {:induction false} CollectLast(rs: seq<Read>, level: nat)
    requires Collect(rs).Success? && level in Collect(rs).value
    ensures exists i :: (0 <= i < |rs| && rs[i] == Success(Some((level, Collect(rs).value[level]))) &&
      forall j, s :: i < j < |rs| ==> rs[j] != Success(Some((level, s))))
    decreases |rs|
  {
    var n := |rs| - 1;
    var init := rs[..n];
    var t := Collect(rs).value[level];
    var stored := rs[n].Success? && rs[n].value.Some? && rs[n].value.value.0 == level;
    if stored {
      assert rs[n] == Success(Some((level, t)));
    } else {
      assert Collect(init).Success? && Collect(init).value[level] == t;
      CollectLast(init, level);
      var i :| 0 <= i < |init| && init[i] == Success(Some((level, t))) &&
        forall j, s :: i < j < |init| ==> init[j] != Success(Some((level, s)));
      assert rs[i] == init[i];
      assert forall j :: i < j < n ==> rs[j] == init[j];
    }
  }

  /** After a load, a level has an entry exactly when some line stores it. */
  lemma BestTimesHas(lines: seq<string>, level: nat)
    requires BestTimes(lines).Success?
    ensures level in BestTimes(lines).value <==>
      exists i, s :: 0 <= i < |lines| && Stores(lines[i], level, s)
  {
    var rs := Reads(lines);
    CollectHas(rs, level);
    if level in BestTimes(lines).value {
      var i, s :| 0 <= i < |rs| && rs[i] == Success(Some((level, s)));
      assert Stores(lines[i], level, s);
    }
  }

  /**
   * The time a level gets is the one stored by the last line that stores
   * that level: later lines overwrite earlier ones.
   */
  lemma BestTimesLast(lines: seq<string>, level: nat)
    requires BestTimes(lines).Success? && level in BestTimes(lines).value
    ensures exists i :: (0 <= i < |lines| && Stores(lines[i], level, BestTimes(lines).value[level]) &&
      forall j, s :: i < j < |lines| ==> !Stores(lines[j], level, s))
  {
    var rs := Reads(lines);
    CollectLast(rs, level);
    var t := BestTimes(lines).value[level];
    var i :| 0 <= i < |rs| && rs[i] == Success(Some((level, t))) &&
      forall j, s :: i < j < |rs| ==> rs[j] != Success(Some((level, s)));
    assert Stores(lines[i], level, t);
  }

  /** The time shown for level `i`: `MM:SS` of its best time, or "None". */
  function TimeString(times: map<nat, nat>, i: int): (s: string)
    ensures i in times ==> |s| >= 5 && IsDigits(s[..2])
    ensures i !in times ==> s == "None"
  {
    if i >= 0 && i in times then
      var t := times[i];
      assert MinSec(t)[..|Format02(t / 60)|] == Format02(t / 60);
      MinSec(t)
    else "None"
  }

  /** Below 100 minutes the shown time reads back as the stored seconds. */
  lemma TimeStringReadsBack(times: map<nat, nat>, i: nat)
    requires i in times && times[i] < 6000
    ensures |TimeString(times, i)| == 5 && TimeString(times, i)[2] == ':'
    ensures ParseNat(TimeString(times, i)[..2]) * 60 + ParseNat(TimeString(times, i)[3..]) == times[i]
  {
    MinSecReadsBack(times[i]);
  }

  /** A stored time is never shown as "None". */
  lemma TimeStringNone(times: map<nat, nat>, i: int)
    ensures TimeString(times, i) == "None" <==> i !in times
  {
    if i in times {
      assert IsDigit(TimeString(times, i)[..2][0]);
    }
  }

  /**
   * The text of entry `i`: `f"Level {i}: {time_str}"`. The text between
   * "Level " and ": " reads back as the level number, and the shown time
   * closes the line.
   */
  function EntryText(times: map<nat, nat>, i: int): (s: string)
    ensures var ts := TimeString(times, i);
      && |s| > 8 + |ts|
      && s[..6] == "Level " && s[|s| - |ts| - 2..|s| - |ts|] == ": " && s[|s| - |ts|..] == ts
      && (i >= 0 ==> IsDigits(s[6..|s| - |ts| - 2]) && ParseNat(s[6..|s| - |ts| - 2]) == i)
      && (i < 0 ==> s[6] == '-' && IsDigits(s[7..|s| - |ts| - 2]) && ParseNat(s[7..|s| - |ts| - 2]) == -i)
  {
    var ts, num := TimeString(times, i), IntToString(i);
    var s := "Level " + num + ": " + ts;
    EntryParts(num, ts);
    IntToStringReadsBack(i);
    s
  }

  /** Where the parts of an entry's text lie. */
  lemma EntryParts(num: string, ts: string)
    requires |num| >= 1
    ensures var s := "Level " + num + ": " + ts;
      && |s| == 8 + |num| + |ts|
      && s[..6] == "Level " && s[|s| - |ts| - 2..|s| - |ts|] == ": " && s[|s| - |ts|..] == ts
      && s[6..|s| - |ts| - 2] == num && s[6] == num[0] && s[7..|s| - |ts| - 2] == num[1..]
  {
  }

  /**
   * Where entry `i` is drawn for a board at (x, y): levels 1 to 6 down the
   * first column, 7 to 12 down a second column 300 pixels to the right,
   * rows 40 pixels apart starting 60 below y.
   */
  function EntryPosition(i: int, x: int, y: int): (p: Point)
    ensures 1 <= i <= 6 ==> p.x == x && p.y == y + 60 + (i - 1) * 40
    ensures 7 <= i <= 12 ==> p.x == x + 300 && p.y == y + 60 + (i - 7) * 40
  {
    var col := if i <= 6 then 0 else 1;
    var row := (i - 1) % 6;
    Point(x + col * 300, y + 60 + row * 40)
  }

  /**
   * The twelve slots are distinct, and two slots in the same column are
   * at least one 40-pixel row apart.
   */
  lemma EntryPositionsDistinct(i: int, j: int, x: int, y: int)
    requires 1 <= i <= TotalLevels && 1 <= j <= TotalLevels && i != j
    ensures EntryPosition(i, x, y) != EntryPosition(j, x, y)
    ensures EntryPosition(i, x, y).x == EntryPosition(j, x, y).x ==>
      Abs(EntryPosition(i, x, y).y - EntryPosition(j, x, y).y) >= 40
  {
  }
}
