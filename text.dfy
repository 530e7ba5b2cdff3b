/**
 * The handful of `str` operations the game applies to level names, score
 * lines and fruit type names: decimal digits and `int()`, `str()` of an
 * integer, the `:02` format, `strip()`, `lower()` and `split()`. Digits
 * and the letters `lower()` changes are the ASCII ones; whitespace is
 * Python's full `str.isspace` set.
 */
module Text {

  predicate IsDigit(c: char)
  {
    '0' <= c <= '9'
  }

  /** `s.isdigit()`: non-empty and made of decimal digits only. */
  predicate IsDigits(s: string)
  {
    |s| >= 1 && forall i :: 0 <= i < |s| ==> IsDigit(s[i])
  }

  function DigitChar(d: int): (c: char)
    requires 0 <= d < 10
    ensures IsDigit(c) && c as int - '0' as int == d
  {
    ('0' as int + d) as char
  }

  /** `str(n)` for a natural number: decimal, no leading zeros. */
  function NatToString(n: nat): (s: string)
    ensures IsDigits(s)
    ensures |s| == 1 || s[0] != '0'
    decreases n
  {
    if n < 10 then [DigitChar(n)] else NatToString(n / 10) + [DigitChar(n % 10)]
  }

  /** `str(i)` for any integer. */
  function IntToString(i: int): (s: string)
    ensures |s| >= 1
    ensures i >= 0 <==> s[0] != '-'
  {
    if i < 0 then "-" + NatToString(-i) else NatToString(i)
  }

  /** `int(s)` for a string of decimal digits (leading zeros allowed). */
  function ParseNat(s: string): nat
    requires forall i :: 0 <= i < |s| ==> IsDigit(s[i])
    decreases |s|
  {
    if s == [] then 0
    else
      assert IsDigit(s[|s| - 1]);
      ParseNat(s[..|s| - 1]) * 10 + (s[|s| - 1] as int - '0' as int)
  }

  /** Reading back what `str` wrote gives the number again. */
  lemma {:induction false} ParseNatToString(n: nat)
    ensures ParseNat(NatToString(n)) == n
    decreases n
  {
    var s := NatToString(n);
    if n >= 10 {
      ParseNatToString(n / 10);
      assert s[..|s| - 1] == NatToString(n / 10);
    }
  }

  /** The digits `str(i)` writes read back as the magnitude of `i`. */
  lemma IntToStringReadsBack(i: int)
    ensures i >= 0 ==> IsDigits(IntToString(i)) && ParseNat(IntToString(i)) == i
    ensures i < 0 ==> IntToString(i)[0] == '-' && IsDigits(IntToString(i)[1..]) && ParseNat(IntToString(i)[1..]) == -i
  {
    if i >= 0 {
      ParseNatToString(i);
    } else {
      assert IntToString(i)[1..] == NatToString(-i);
      ParseNatToString(-i);
    }
  }

  /** A digit string with a non-zero first digit reads as a positive number. */
  lemma {:induction false} LeadingDigitPositive(s: string)
    requires IsDigits(s) && s[0] != '0'
    ensures ParseNat(s) >= 1
    decreases |s|
  {
    if |s| > 1 {
      var init := s[..|s| - 1];
      assert init[0] == s[0];
      LeadingDigitPositive(init);
    }
  }

  /**
   * A digit string without a leading zero is exactly what `str` writes for
   * the number `int()` reads from it: the converse of `ParseNatToString`.
   */
  lemma {:induction false} CanonicalDigits(s: string)
    requires IsDigits(s) && (|s| == 1 || s[0] != '0')
    ensures NatToString(ParseNat(s)) == s
    decreases |s|
  {
    if |s| > 1 {
      var init := s[..|s| - 1];
      assert init[0] == s[0];
      LeadingDigitPositive(init);
      CanonicalDigits(init);
      var d := s[|s| - 1] as int - '0' as int;
      assert ParseNat(s) == ParseNat(init) * 10 + d;
      assert ParseNat(s) / 10 == ParseNat(init) && ParseNat(s) % 10 == d;
      assert s == init + [DigitChar(d)];
    }
  }

  /** Leading zeros do not change the value `int()` reads. */
  lemma {:induction false} ParseNatLeadingZero(s: string)
    requires forall i :: 0 <= i < |s| ==> IsDigit(s[i])
    ensures ParseNat("0" + s) == ParseNat(s)
    decreases |s|
  {
    if s != [] {
      assert ("0" + s)[..|"0" + s| - 1] == "0" + s[..|s| - 1];
      ParseNatLeadingZero(s[..|s| - 1]);
    }
  }

  /** `f"{n:02}"`: decimal, left-padded with '0' to at least two characters. */
  function Pad2(n: nat): (s: string)
    ensures |s| >= 2 && IsDigits(s)
    ensures n < 100 ==> |s| == 2
    ensures ParseNat(s) == n
  {
    ParseNatToString(n);
    if n < 10 then
      ParseNatLeadingZero(NatToString(n));
      "0" + NatToString(n)
    else NatToString(n)
  }

  /**
   * `f"{i:02}"` for any integer: a non-negative number is zero-padded to two
   * digits; a negative one already has two characters with its sign.
   */
  function Format02(i: int): (s: string)
    ensures i >= 0 ==> s == Pad2(i)
    ensures i < 0 ==> s == IntToString(i) && s[0] == '-'
  {
    if i >= 0 then Pad2(i) else IntToString(i)
  }

  /**
   * The `MM:SS` string both the menu bar and the score board show for a
   * number of seconds: `t // 60` and `t % 60`, each through `:02`, with a
   * colon between. Python's `//` and `%` round towards minus infinity,
   * which for the positive divisor 60 is exactly Dafny's `/` and `%`.
   */
  function MinSec(t: int): string
  {
    Format02(t / 60) + ":" + Format02(t % 60)
  }

  /**
   * Below 100 minutes `MinSec` is five characters, and reading the two
   * fields back gives the number of seconds again.
   */
  lemma MinSecReadsBack(t: int)
    requires 0 <= t < 6000
    ensures |MinSec(t)| == 5 && MinSec(t)[2] == ':'
    ensures IsDigits(MinSec(t)[..2]) && IsDigits(MinSec(t)[3..])
    ensures ParseNat(MinSec(t)[..2]) * 60 + ParseNat(MinSec(t)[3..]) == t
  {
    var m, c := Format02(t / 60), Format02(t % 60);
    assert MinSec(t)[..2] == m;
    assert MinSec(t)[3..] == c;
  }

  /** The string starts with a minus sign exactly when the time is negative. */
  lemma MinSecSign(t: int)
    ensures MinSec(t)[0] == '-' <==> t < 0
  {
    var m := Format02(t / 60);
    assert MinSec(t)[0] == m[0];
    if t >= 0 {
      assert IsDigits(m);
    } else {
      assert t / 60 < 0;
    }
  }

  /**
   * The characters `str.strip()` and `int()` treat as whitespace (Python's
   * `str.isspace`): tab to carriage return, the four separators 0x1C-0x1F,
   * the space, and the Unicode spaces and line separators.
   */
  predicate IsSpace(c: char)
  {
    ('\t' <= c <= '\r') || ('\U{1C}' <= c <= '\U{1F}') || c == ' ' ||
    c == '\U{85}' || c == '\U{A0}' || c == '\U{1680}' || ('\U{2000}' <= c <= '\U{200A}') ||
    c == '\U{2028}' || c == '\U{2029}' || c == '\U{202F}' || c == '\U{205F}' || c == '\U{3000}'
  }

  /**
   * The ASCII characters `str.isspace` accepts: tab, line feed, vertical
   * tab, form feed, carriage return, the four information separators
   * 0x1C to 0x1F, and the space.
   */
  lemma AsciiWhitespace(c: char)
    requires c < '\U{80}'
    ensures IsSpace(c) <==> c in "\t\n\U{B}\U{C}\r\U{1C}\U{1D}\U{1E}\U{1F} "
  {
  }

  /** The number of whitespace characters `s` starts with. */
  function Lead(s: string): (n: nat)
    ensures n <= |s| && (forall k :: 0 <= k < n ==> IsSpace(s[k]))
    ensures n == |s| || !IsSpace(s[n])
    decreases |s|
  {
    if s != [] && IsSpace(s[0]) then 1 + Lead(s[1..]) else 0
  }

  /** The number of whitespace characters `s` ends with. */
  function Trail(s: string): (n: nat)
    ensures n <= |s| && (forall k :: |s| - n <= k < |s| ==> IsSpace(s[k]))
    ensures n == |s| || !IsSpace(s[|s| - 1 - n])
    decreases |s|
  {
    if s != [] && IsSpace(s[|s| - 1]) then 1 + Trail(s[..|s| - 1]) else 0
  }

  /**
   * `s.strip()`: drop leading and trailing whitespace. What is left is the
   * middle of `s` between its whitespace ends, and is empty or starts and
   * ends with a character that is not whitespace.
   */
  function Strip(s: string): (r: string)
    ensures Lead(s) < |s| ==> Lead(s) + Trail(s) < |s| && r == s[Lead(s)..|s| - Trail(s)]
    ensures Lead(s) == |s| ==> r == []
    ensures r == [] || (!IsSpace(r[0]) && !IsSpace(r[|r| - 1]))
  {
    var i := Lead(s);
    if i == |s| then []
    else
      s[i..|s| - Trail(s)]
  }

  function LowerChar(c: char): (r: char)
  {
    if 'A' <= c <= 'Z' then (c as int + 32) as char else c
  }

  /** `s.lower()` on ASCII letters; every other character is kept. */
  function Lower(s: string): (r: string)
    ensures |r| == |s|
    ensures forall i :: 0 <= i < |s| ==> r[i] == LowerChar(s[i])
  {
    seq(|s|, i requires 0 <= i < |s| => LowerChar(s[i]))
  }

  /** Lower-casing twice is lower-casing once. */
  lemma LowerIdempotent(s: string)
    ensures Lower(Lower(s)) == Lower(s)
  {
  }

  /** The number of occurrences of `c` in `s`. */
  function Count(s: string, c: char): nat
    decreases |s|
  {
    if s == [] then 0 else Count(s[..|s| - 1], c) + (if s[|s| - 1] == c then 1 else 0)
  }

  /** `s.split(sep)`: the pieces between occurrences of `sep`, always one more than the occurrences. */
  function Split(s: string, sep: char): (parts: seq<string>)
    ensures |parts| == Count(s, sep) + 1
    ensures forall i :: 0 <= i < |parts| ==> sep !in parts[i]
    decreases |s|
  {
    if s == [] then [""]
    else
      var init := Split(s[..|s| - 1], sep);
      var last := s[|s| - 1];
      if last == sep then init + [""]
      else init[..|init| - 1] + [init[|init| - 1] + [last]]
  }

  /** Joining the pieces back with `sep` gives the string again. */
  function Join(parts: seq<string>, sep: char): string
    decreases |parts|
  {
    if parts == [] then "" else if |parts| == 1 then parts[0]
    else Join(parts[..|parts| - 1], sep) + [sep] + parts[|parts| - 1]
  }

  /** Appending an empty piece appends a separator. */
  lemma JoinAppendEmpty(parts: seq<string>, sep: char)
    requires parts != []
    ensures Join(parts + [""], sep) == Join(parts, sep) + [sep]
  {
    assert (parts + [""])[..|parts|] == parts;
  }

  /** Extending the last piece by a character extends the joined string by it. */
  lemma JoinExtendLast(parts: seq<string>, sep: char, c: char)
    requires parts != []
    ensures Join(parts[..|parts| - 1] + [parts[|parts| - 1] + [c]], sep) == Join(parts, sep) + [c]
  {
    var n := |parts|;
    var ext := parts[..n - 1] + [parts[n - 1] + [c]];
    assert ext[..n - 1] == parts[..n - 1];
  }

  lemma {:induction false} SplitJoin(s: string, sep: char)
    ensures Join(Split(s, sep), sep) == s
    decreases |s|
  {
    if s != [] {
      var t, c := s[..|s| - 1], s[|s| - 1];
      var init := Split(t, sep);
      SplitJoin(t, sep);
      if c == sep {
        assert Split(s, sep) == init + [""];
        JoinAppendEmpty(init, sep);
      } else {
        assert Split(s, sep) == init[..|init| - 1] + [init[|init| - 1] + [c]];
        JoinExtendLast(init, sep, c);
      }
      assert Join(Split(s, sep), sep) == t + [c];
      assert s == t + [c];
    }
  }

  /** A string without the separator splits into itself alone. */
  lemma {:induction false} SplitNone(s: string, sep: char)
    requires sep !in s
    ensures Split(s, sep) == [s]
    decreases |s|
  {
    if s != [] {
      SplitNone(s[..|s| - 1], sep);
      assert s[..|s| - 1] + [s[|s| - 1]] == s;
    }
  }

  /** A separator followed by a separator-free tail adds that tail as the last piece. */
  lemma {:induction false} SplitAfterSep(a: string, b: string, sep: char)
    requires sep !in b
    ensures Split(a + [sep] + b, sep) == Split(a, sep) + [b]
    decreases |b|
  {
    var s := a + [sep] + b;
    if b == [] {
      assert s[..|s| - 1] == a;
    } else {
      var b' := b[..|b| - 1];
      assert s[..|s| - 1] == a + [sep] + b';
      SplitAfterSep(a, b', sep);
      assert b' + [b[|b| - 1]] == b;
    }
  }

  /** Occurrences add up over a concatenation. */
  lemma {:induction false} CountConcat(a: string, b: string, c: char)
    ensures Count(a + b, c) == Count(a, c) + Count(b, c)
    decreases |b|
  {
    if b != [] {
      var s, b' := a + b, b[..|b| - 1];
      assert s[..|s| - 1] == a + b';
      assert s[|s| - 1] == b[|b| - 1];
      CountConcat(a, b', c);
    } else {
      assert a + b == a;
    }
  }

  /** A character occurs in a string exactly when its count is positive. */
  lemma {:induction false} CountPositive(s: string, c: char)
    ensures Count(s, c) > 0 <==> c in s
    decreases |s|
  {
    if s != [] {
      CountPositive(s[..|s| - 1], c);
      assert s == s[..|s| - 1] + [s[|s| - 1]];
    }
  }

  /** `strip()` only removes whitespace, so it keeps every other character's count. */
  lemma StripCount(s: string, c: char)
    requires !IsSpace(c)
    ensures Count(Strip(s), c) == Count(s, c)
  {
    var i, t := Lead(s), Trail(s);
    if i == |s| {
      SpacesMiss(s, 0, |s|, c);
      assert s[0..|s|] == s;
    } else {
      var j := |s| - t;
      Pieces(s, i, j);
      CountThree(s[..i], s[i..j], s[j..|s|], c);
      SpacesMiss(s, 0, i, c);
      SpacesMiss(s, j, |s|, c);
    }
  }

  /** `s` is its three pieces cut at `i` and at `j`. */
  lemma Pieces(s: string, i: int, j: int)
    requires 0 <= i <= j <= |s|
    ensures s == s[..i] + s[i..j] + s[j..|s|]
  {
  }

  /** Occurrences add up over three pieces. */
  lemma CountThree(a: string, b: string, d: string, c: char)
    ensures Count(a + b + d, c) == Count(a, c) + Count(b, c) + Count(d, c)
  {
    CountConcat(a + b, d, c);
    CountConcat(a, b, c);
  }

  /** A character other than whitespace does not occur in a run of whitespace. */
  lemma SpacesMiss(s: string, lo: int, hi: int, c: char)
    requires 0 <= lo <= hi <= |s| && !IsSpace(c)
    requires forall k :: lo <= k < hi ==> IsSpace(s[k])
    ensures Count(s[lo..hi], c) == 0
  {
    CountPositive(s[lo..hi], c);
  }

  /** A string with no whitespace at either end is its own `strip()`. */
  lemma StripClean(s: string)
    requires s != [] && !IsSpace(s[0]) && !IsSpace(s[|s| - 1])
    ensures Strip(s) == s
  {
  }
}
