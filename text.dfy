/** Operations on strings that the relay and its tools use: prefix tests, substring search,
    Python's `str.replace`, `str.split` and `str.join`, and decimal rendering (`str(n)`). */
module Text {
  import opened Common

  predicate StartsWith(s: string, prefix: string) {
    |prefix| <= |s| && s[..|prefix|] == prefix
  }

  /** `pat` occurs in `s` starting at index `i`. */
  predicate OccursAt(s: string, pat: string, i: int) {
    0 <= i && i + |pat| <= |s| && s[i..i + |pat|] == pat
  }

  /** Python's `pat in s`. */
  predicate Contains(s: string, pat: string) {
    exists i :: 0 <= i <= |s| && OccursAt(s, pat, i)
  }

  /** Python's `s.find(pat)`, with `None` for -1: the leftmost occurrence. */
  function FindFirst(s: string, pat: string): (r: Option<nat>)
    requires |pat| > 0
    ensures r.Some? ==> OccursAt(s, pat, r.value)
    ensures r.Some? ==> forall j :: 0 <= j < r.value ==> !OccursAt(s, pat, j)
    ensures r.None? ==> forall j :: !OccursAt(s, pat, j)
    decreases |s|
  {
    if |s| < |pat| then None
    else if StartsWith(s, pat) then Some(0)
    else
      OccursShift(s, pat);
      match FindFirst(s[1..], pat)
      case None => None
      case Some(i) => Some(i + 1)
  }

  /** An occurrence after the first character of `s` is an occurrence in `s[1..]`. */
  lemma OccursShift(s: string, pat: string)
    requires |s| >= 1
    ensures forall j :: 1 <= j ==> (OccursAt(s, pat, j) <==> OccursAt(s[1..], pat, j - 1))
  {
    forall j | 1 <= j
      ensures OccursAt(s, pat, j) <==> OccursAt(s[1..], pat, j - 1)
    {
      if j + |pat| <= |s| {
        var k := j - 1;
        assert s[1..][k..k + |pat|] == s[k + 1..k + 1 + |pat|];
      }
    }
  }

  lemma ContainsIffFound(s: string, pat: string)
    requires |pat| > 0
    ensures Contains(s, pat) <==> FindFirst(s, pat).Some?
  {
    if FindFirst(s, pat).Some? {
      assert OccursAt(s, pat, FindFirst(s, pat).value);
    }
  }

  /** Python's `s.replace(pat, rep)` for a non-empty `pat`: scanning left to right, every
      occurrence that does not overlap an earlier replaced one is replaced. */
  function ReplaceAll(s: string, pat: string, rep: string): string
    requires |pat| > 0
    decreases |s|
  {
    if |s| < |pat| then s
    else if StartsWith(s, pat) then rep + ReplaceAll(s[|pat|..], pat, rep)
    else [s[0]] + ReplaceAll(s[1..], pat, rep)
  }

  /** Python's `s.split(sep)` for a non-empty `sep`. */
  function Split(s: string, sep: string): (pieces: seq<string>)
    requires |sep| > 0
    ensures |pieces| >= 1
    decreases |s|
  {
    match FindFirst(s, sep)
    case None => [s]
    case Some(i) => [s[..i]] + Split(s[i + |sep|..], sep)
  }

  /** Python's `sep.join(pieces)`. */
  function Join(pieces: seq<string>, sep: string): string
    decreases |pieces|
  {
    if |pieces| == 0 then ""
    else if |pieces| == 1 then pieces[0]
    else pieces[0] + sep + Join(pieces[1..], sep)
  }

  function TotalLength(pieces: seq<string>): nat
    decreases |pieces|
  {
    if |pieces| == 0 then 0 else |pieces[0]| + TotalLength(pieces[1..])
  }

  lemma {:induction false} JoinLength(pieces: seq<string>, sep: string)
    requires |pieces| >= 1
    ensures |Join(pieces, sep)| == TotalLength(pieces) + (|pieces| - 1) * |sep|
    decreases |pieces|
  {
    if |pieces| > 1 {
      JoinLength(pieces[1..], sep);
    }
  }

  lemma JoinCons(head: string, rest: seq<string>, sep: string)
    requires |rest| >= 1
    ensures Join([head] + rest, sep) == head + sep + Join(rest, sep)
  {
    assert ([head] + rest)[1..] == rest;
  }

  /** Prepending text to the first piece prepends it to the joined string. */
  lemma JoinPrependFirst(c: string, pieces: seq<string>, sep: string)
    requires |pieces| >= 1
    ensures Join([c + pieces[0]] + pieces[1..], sep) == c + Join(pieces, sep)
  {
    if |pieces| > 1 {
      JoinCons(c + pieces[0], pieces[1..], sep);
    }
  }

  lemma SplitAt(s: string, sep: string, i: nat, after: string)
    requires |sep| > 0 && FindFirst(s, sep) == Some(i)
    requires i + |sep| <= |s| && after == s[i + |sep|..]
    ensures Split(s, sep) == [s[..i]] + Split(after, sep)
  {
    var pieces := Split(s, sep);
    assert pieces == [s[..i]] + Split(s[i + |sep|..], sep);
  }

  /** How `Split` of `s` relates to `Split` of `s[1..]` when no occurrence starts at 0. */
  lemma SplitStep(s: string, sep: string)
    requires |sep| > 0 && |s| >= |sep| && !StartsWith(s, sep)
    ensures Split(s, sep) == [[s[0]] + Split(s[1..], sep)[0]] + Split(s[1..], sep)[1..]
  {
    match FindFirst(s[1..], sep)
    case None => SplitStepNoMore(s, sep);
    case Some(i) => SplitStepLater(s, sep, i);
  }

  lemma SplitStepNoMore(s: string, sep: string)
    requires |sep| > 0 && |s| >= |sep| && !StartsWith(s, sep) && FindFirst(s[1..], sep) == None
    ensures Split(s, sep) == [[s[0]] + Split(s[1..], sep)[0]] + Split(s[1..], sep)[1..]
  {
    var tail := s[1..];
    assert FindFirst(s, sep) == None;
    assert Split(tail, sep) == [tail];
    assert [s[0]] + tail == s;
  }

  lemma SplitStepLater(s: string, sep: string, i: nat)
    requires |sep| > 0 && |s| >= |sep| && !StartsWith(s, sep) && FindFirst(s[1..], sep) == Some(i)
    ensures Split(s, sep) == [[s[0]] + Split(s[1..], sep)[0]] + Split(s[1..], sep)[1..]
  {
    var tail := s[1..];
    assert FindFirst(s, sep) == Some(i + 1);
    var after := s[i + 1 + |sep|..];
    assert tail[i + |sep|..] == after;
    SplitAt(s, sep, i + 1, after);
    SplitAt(tail, sep, i, after);
    assert [s[0]] + tail[..i] == s[..i + 1];
  }

  /** `str.replace` is `split` followed by `join` with the replacement: every piece
      between two consecutive non-overlapping occurrences is kept and each occurrence
      becomes `rep`. */
  lemma {:induction false} ReplaceAllIsJoinSplit(s: string, pat: string, rep: string)
    requires |pat| > 0
    ensures ReplaceAll(s, pat, rep) == Join(Split(s, pat), rep)
    decreases |s|
  {
    if |s| < |pat| {
      assert FindFirst(s, pat) == None;
    } else if StartsWith(s, pat) {
      ReplaceAllIsJoinSplit(s[|pat|..], pat, rep);
      ReplaceAtMatch(s, pat, rep);
    } else {
      ReplaceAllIsJoinSplit(s[1..], pat, rep);
      ReplaceOffMatch(s, pat, rep);
    }
  }

  /** The inductive step of `ReplaceAllIsJoinSplit` when `s` starts with `pat`. */
  lemma ReplaceAtMatch(s: string, pat: string, rep: string)
    requires |pat| > 0 && |s| >= |pat| && StartsWith(s, pat)
    requires ReplaceAll(s[|pat|..], pat, rep) == Join(Split(s[|pat|..], pat), rep)
    ensures ReplaceAll(s, pat, rep) == Join(Split(s, pat), rep)
  {
    assert OccursAt(s, pat, 0);
    assert FindFirst(s, pat) == Some(0);
    SplitAt(s, pat, 0, s[|pat|..]);
    JoinCons(s[..0], Split(s[|pat|..], pat), rep);
    assert s[..0] + rep == rep;
  }

  /** The inductive step of `ReplaceAllIsJoinSplit` when `s` does not start with `pat`. */
  lemma ReplaceOffMatch(s: string, pat: string, rep: string)
    requires |pat| > 0 && |s| >= |pat| && !StartsWith(s, pat)
    requires ReplaceAll(s[1..], pat, rep) == Join(Split(s[1..], pat), rep)
    ensures ReplaceAll(s, pat, rep) == Join(Split(s, pat), rep)
  {
    SplitStep(s, pat);
    JoinPrependFirst([s[0]], Split(s[1..], pat), rep);
  }

  lemma {:induction false} ReplaceWithItself(s: string, pat: string)
    requires |pat| > 0
    ensures ReplaceAll(s, pat, pat) == s
    decreases |s|
  {
    if |s| < |pat| {
    } else if StartsWith(s, pat) {
      ReplaceWithItself(s[|pat|..], pat);
      assert pat + s[|pat|..] == s;
    } else {
      ReplaceWithItself(s[1..], pat);
      assert [s[0]] + s[1..] == s;
    }
  }

  /** Joining the pieces of a split with the separator gives the string back. */
  lemma JoinSplit(s: string, sep: string)
    requires |sep| > 0
    ensures Join(Split(s, sep), sep) == s
  {
    ReplaceAllIsJoinSplit(s, sep, sep);
    ReplaceWithItself(s, sep);
  }

  /** The first piece of a split is the text up to the first separator, or all of it. */
  lemma SplitFirstPiece(s: string, sep: string)
    requires |sep| > 0
    ensures var p := Split(s, sep)[0];
            && |p| <= |s| && s[..|p|] == p
            && (|p| == |s| || OccursAt(s, sep, |p|))
  {
    match FindFirst(s, sep)
    case None =>
      assert Split(s, sep) == [s];
    case Some(i) =>
      assert Split(s, sep)[0] == s[..i];
  }

  /** No piece of a split contains the separator. */
  lemma {:induction false} SplitPiecesFree(s: string, sep: string, k: nat)
    requires |sep| > 0 && k < |Split(s, sep)|
    ensures !Contains(Split(s, sep)[k], sep)
    decreases |s|
  {
    match FindFirst(s, sep)
    case None =>
      assert Split(s, sep) == [s];
    case Some(i) =>
      if k == 0 {
        forall j | OccursAt(s[..i], sep, j) ensures false {
          assert s[..i][j..j + |sep|] == s[j..j + |sep|];
          assert OccursAt(s, sep, j);
        }
      } else {
        SplitPiecesFree(s[i + |sep|..], sep, k - 1);
      }
  }

  /** A string without an occurrence of `pat` is left as it is by `str.replace`. */
  lemma ReplaceAbsent(s: string, pat: string, rep: string)
    requires |pat| > 0 && !Contains(s, pat)
    ensures ReplaceAll(s, pat, rep) == s
  {
    ContainsIffFound(s, pat);
    ReplaceAllIsJoinSplit(s, pat, rep);
  }

  lemma ScaledLengthsDiffer(n: int, x: int, y: int)
    requires n != 0 && x != y
    ensures n * x != n * y
  {
    assert n * x - n * y == n * (x - y);
  }

  /** Joining with separators of different lengths gives different strings. */
  lemma JoinsDifferInLength(pieces: seq<string>, a: string, b: string)
    requires |pieces| >= 2 && |a| != |b|
    ensures Join(pieces, a) != Join(pieces, b)
  {
    JoinLength(pieces, a);
    JoinLength(pieces, b);
    ScaledLengthsDiffer(|pieces| - 1, |a|, |b|);
  }

  /** Joining with different separators of one length differs at the first separator. */
  lemma JoinsDifferAtFirstSeparator(pieces: seq<string>, a: string, b: string)
    requires |pieces| >= 2 && |a| == |b| && a != b
    ensures Join(pieces, a) != Join(pieces, b)
  {
    JoinCons(pieces[0], pieces[1..], a);
    JoinCons(pieces[0], pieces[1..], b);
    assert pieces == [pieces[0]] + pieces[1..];
    var n := |pieces[0]|;
    assert Join(pieces, a)[n..n + |a|] == a;
    assert Join(pieces, b)[n..n + |b|] == b;
  }

  lemma ReplaceChangesOccurrence(s: string, pat: string, rep: string)
    requires |pat| > 0 && rep != pat && FindFirst(s, pat).Some?
    ensures ReplaceAll(s, pat, rep) != s
  {
    var pieces := Split(s, pat);
    assert |pieces| >= 2;
    ReplaceAllIsJoinSplit(s, pat, rep);
    JoinSplit(s, pat);
    if |rep| != |pat| {
      JoinsDifferInLength(pieces, rep, pat);
    } else {
      JoinsDifferAtFirstSeparator(pieces, rep, pat);
    }
  }

  /** `str.replace` with a replacement different from the pattern changes the string
      exactly when the pattern occurs in it. */
  /** Replacing a pattern by text of the same length keeps the length. */
  lemma {:induction false} ReplaceKeepsLength(s: string, pat: string, rep: string)
    requires |pat| > 0 && |rep| == |pat|
    ensures |ReplaceAll(s, pat, rep)| == |s|
    decreases |s|
  {
    if |s| >= |pat| {
      if StartsWith(s, pat) {
        ReplaceKeepsLength(s[|pat|..], pat, rep);
      } else {
        ReplaceKeepsLength(s[1..], pat, rep);
      }
    }
  }

  lemma ReplaceUnchangedIff(s: string, pat: string, rep: string)
    requires |pat| > 0 && rep != pat
    ensures ReplaceAll(s, pat, rep) == s <==> !Contains(s, pat)
  {
    if Contains(s, pat) {
      ContainsIffFound(s, pat);
      ReplaceChangesOccurrence(s, pat, rep);
    } else {
      ReplaceAbsent(s, pat, rep);
    }
  }

  // Decimal rendering, as Python's str(n) and JavaScript's String(n) write integers.

  function DigitChar(d: int): char
    requires 0 <= d < 10
  {
    "0123456789"[d]
  }

  predicate IsDigit(c: char) {
    '0' <= c <= '9'
  }

  function NatToString(n: nat): (r: string)
    ensures |r| >= 1
    ensures forall k :: 0 <= k < |r| ==> IsDigit(r[k])
    ensures r[0] == '0' ==> n == 0
    decreases n
  {
    if n < 10 then [DigitChar(n)] else NatToString(n / 10) + [DigitChar(n % 10)]
  }

  /** The value of a run of decimal digits. */
  function DigitsValue(s: string): nat
    requires forall k :: 0 <= k < |s| ==> IsDigit(s[k])
    decreases |s|
  {
    if |s| == 0 then 0
    else
      assert IsDigit(s[|s| - 1]);
      DigitsValue(s[..|s| - 1]) * 10 + (s[|s| - 1] as int - '0' as int)
  }

  lemma {:induction false} DigitsOfNatToString(n: nat)
    ensures DigitsValue(NatToString(n)) == n
    decreases n
  {
    if n >= 10 {
      DigitsOfNatToString(n / 10);
      var s := NatToString(n);
      assert s[..|s| - 1] == NatToString(n / 10);
    }
  }

  /** Decimal rendering loses nothing: distinct numbers have distinct renderings. */
  lemma NatToStringInjective(m: nat, n: nat)
    requires NatToString(m) == NatToString(n)
    ensures m == n
  {
    DigitsOfNatToString(m);
    DigitsOfNatToString(n);
  }

  /** Python's `str(i)` for an integer. */
  function IntToString(i: int): (r: string)
    ensures r != ""
    ensures r[0] == '-' <==> i < 0
  {
    if i < 0 then "-" + NatToString(-i) else NatToString(i)
  }

  /** `toLowerCase` on one ASCII character; other characters are left as they are. */
  function LowerChar(c: char): char {
    if 'A' <= c <= 'Z' then (c as int + 32) as char else c
  }

  function LowerAscii(s: string): (r: string)
    ensures |r| == |s|
    ensures forall k :: 0 <= k < |s| ==> r[k] == LowerChar(s[k])
    decreases |s|
  {
    if |s| == 0 then "" else [LowerChar(s[0])] + LowerAscii(s[1..])
  }
}
