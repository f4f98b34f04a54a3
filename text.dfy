/** String operations the archive manager performs with `str.strip`, `re.sub`,
    `re.split` and slicing, each stated over an arbitrary character class. */
module Text {

  /** Every character of `s` is in class `q`. */
  predicate All(s: string, q: char -> bool) {
    forall i :: 0 <= i < |s| ==> q(s[i])
  }

  /** No character of `s` is in class `q`. */
  predicate NoneOf(s: string, q: char -> bool) {
    forall i :: 0 <= i < |s| ==> !q(s[i])
  }

  /** No two neighbouring characters of `s` are both in class `q`. */
  predicate NoAdjacent(s: string, q: char -> bool) {
    forall i :: 0 <= i < |s| - 1 ==> !(q(s[i]) && q(s[i + 1]))
  }

  /** `s.lstrip(chars)` for the set of characters `p`. */
  function StripLeft(s: string, p: char -> bool): (r: string)
    ensures |r| <= |s| && r == s[|s| - |r|..]
    ensures r == [] || !p(r[0])
    ensures s != [] && p(s[0]) ==> |r| < |s|
    ensures All(s[..|s| - |r|], p)
    decreases |s|
  {
    if s != [] && p(s[0]) then StripLeft(s[1..], p) else s
  }

  /** `s.rstrip(chars)` for the set of characters `p`. */
  function StripRight(s: string, p: char -> bool): (r: string)
    ensures |r| <= |s| && r == s[..|r|]
    ensures r == [] || !p(r[|r| - 1])
    ensures All(s[|r|..], p)
    decreases |s|
  {
    if s != [] && p(s[|s| - 1]) then StripRight(s[..|s| - 1], p) else s
  }

  /** `s.strip(chars)`: both ends. */
  function Strip(s: string, p: char -> bool): (r: string)
    ensures |r| <= |s|
    ensures r == [] || (!p(r[0]) && !p(r[|r| - 1]))
  {
    StripRight(StripLeft(s, p), p)
  }

  /** What `strip` keeps is a window of `s`: the characters from some offset `k` on. */
  lemma StripWindow(s: string, p: char -> bool) returns (k: nat)
    ensures k + |Strip(s, p)| <= |s|
    ensures forall i :: 0 <= i < |Strip(s, p)| ==> Strip(s, p)[i] == s[k + i]
  {
    var left := StripLeft(s, p);
    k := |s| - |left|;
    var r := StripRight(left, p);
    assert forall i :: 0 <= i < |r| ==> r[i] == left[i];
    assert forall i :: 0 <= i < |left| ==> left[i] == s[k + i];
  }

  /** `re.sub("[class]", "", s)`: drop every character of the class. */
  function RemoveAll(s: string, p: char -> bool): (r: string)
    ensures |r| <= |s|
    ensures NoneOf(r, p)
    ensures forall c :: c in r ==> c in s
  {
    if s == [] then []
    else if p(s[0]) then RemoveAll(s[1..], p)
    else [s[0]] + RemoveAll(s[1..], p)
  }

  /** `re.sub("[class]", c, s)`: replace every character of the class by `c`. */
  function ReplaceEach(s: string, p: char -> bool, c: char): (r: string)
    ensures |r| == |s|
    ensures forall i :: 0 <= i < |s| ==> r[i] == if p(s[i]) then c else s[i]
  {
    if s == [] then [] else [if p(s[0]) then c else s[0]] + ReplaceEach(s[1..], p, c)
  }

  /** `re.sub("[class]+", rep, s)`: every maximal run of class characters becomes `rep`. */
  function CollapseRuns(s: string, p: char -> bool, rep: string): (r: string)
    decreases |s|
  {
    if s == [] then []
    else if p(s[0]) then rep + CollapseRuns(StripLeft(s, p), p, rep)
    else [s[0]] + CollapseRuns(s[1..], p, rep)
  }

  /** `s[:n]` for a non-negative `n`. */
  function Take(s: string, n: nat): (r: string)
    ensures |r| == if n < |s| then n else |s|
    ensures r == s[..|r|]
  {
    if n < |s| then s[..n] else s
  }

  predicate StartsWith(s: string, prefix: string) {
    |prefix| <= |s| && s[..|prefix|] == prefix
  }

  predicate EndsWith(s: string, suffix: string) {
    |suffix| <= |s| && s[|s| - |suffix|..] == suffix
  }

  /** The longest prefix of `s` without a character of class `p`. */
  function PrefixWithout(s: string, p: char -> bool): (w: string)
    ensures |w| <= |s| && w == s[..|w|]
    ensures NoneOf(w, p)
    ensures |w| < |s| ==> p(s[|w|])
  {
    if s == [] || p(s[0]) then [] else [s[0]] + PrefixWithout(s[1..], p)
  }

  /** `re.split("[class]+", s)`: the pieces between maximal runs of class
      characters, with an empty piece before a leading run and after a trailing one. */
  function SplitRuns(s: string, p: char -> bool): (parts: seq<string>)
    ensures |parts| >= 1
    ensures forall k :: 0 <= k < |parts| ==> NoneOf(parts[k], p)
    decreases |s|
  {
    var w := PrefixWithout(s, p);
    if |w| == |s| then [s]
    else [w] + SplitRuns(StripLeft(s[|w|..], p), p)
  }

  /** `sep.join(items)`. */
  function JoinWith(items: seq<string>, sep: string): (r: string)
  {
    if items == [] then []
    else if |items| == 1 then items[0]
    else items[0] + sep + JoinWith(items[1..], sep)
  }

  /** Every character that `CollapseRuns` produces comes from `rep` or is a character
      of `s` outside the collapsed class, so a class `q` that holds of both holds of
      the result. */
  lemma {:induction false} CollapseRunsAll(s: string, p: char -> bool, rep: string, q: char -> bool)
    requires All(rep, q)
    requires forall i :: 0 <= i < |s| && !p(s[i]) ==> q(s[i])
    ensures All(CollapseRuns(s, p, rep), q)
    decreases |s|
  {
    if s == [] {
    } else if p(s[0]) {
      var t := StripLeft(s, p);
      assert forall i :: 0 <= i < |t| ==> t[i] == s[|s| - |t| + i];
      CollapseRunsAll(t, p, rep, q);
    } else {
      assert forall i :: 0 <= i < |s[1..]| ==> s[1..][i] == s[i + 1];
      CollapseRunsAll(s[1..], p, rep, q);
    }
  }

  /** `CollapseRuns` keeps the first character when it is outside the class. */
  lemma CollapseRunsHead(s: string, p: char -> bool, rep: string)
    requires s != [] && !p(s[0])
    ensures CollapseRuns(s, p, rep) != [] && CollapseRuns(s, p, rep)[0] == s[0]
  {
  }

  /** Collapsing runs of class `p` into one class character leaves no two class
      characters next to each other. */
  lemma {:induction false} CollapseRunsNoAdjacent(s: string, p: char -> bool, c: char)
    requires p(c)
    ensures NoAdjacent(CollapseRuns(s, p, [c]), p)
    decreases |s|
  {
    if s == [] {
    } else if p(s[0]) {
      var t := StripLeft(s, p);
      CollapseRunsNoAdjacent(t, p, c);
      var rest := CollapseRuns(t, p, [c]);
      if t != [] {
        CollapseRunsHead(t, p, [c]);
      }
      assert CollapseRuns(s, p, [c]) == [c] + rest;
    } else {
      CollapseRunsNoAdjacent(s[1..], p, c);
      assert CollapseRuns(s, p, [c]) == [s[0]] + CollapseRuns(s[1..], p, [c]);
    }
  }

  /** A run of class `p` collapses to nothing only when the input was empty. */
  lemma {:induction false} CollapseRunsEmpty(s: string, p: char -> bool, rep: string)
    requires rep != []
    ensures CollapseRuns(s, p, rep) == [] <==> s == []
  {
  }

  lemma NoAdjacentSlice(s: string, q: char -> bool, i: nat, j: nat)
    requires i <= j <= |s|
    requires NoAdjacent(s, q)
    ensures NoAdjacent(s[i..j], q)
  {
    assert forall k :: 0 <= k < j - i ==> s[i..j][k] == s[i + k];
  }

  lemma AllSlice(s: string, q: char -> bool, i: nat, j: nat)
    requires i <= j <= |s|
    requires All(s, q)
    ensures All(s[i..j], q)
  {
    assert forall k :: 0 <= k < j - i ==> s[i..j][k] == s[i + k];
  }

  lemma {:induction false} StripLeftKeeps(s: string, p: char -> bool, c: char)
    requires c in s && !p(c)
    ensures c in StripLeft(s, p)
    decreases |s|
  {
    if s[0] != c {
      assert c in s[1..];
      if p(s[0]) {
        StripLeftKeeps(s[1..], p, c);
      }
    }
  }

  lemma {:induction false} StripRightKeeps(s: string, p: char -> bool, c: char)
    requires c in s && !p(c)
    ensures c in StripRight(s, p)
    decreases |s|
  {
    if s[|s| - 1] != c {
      var i :| 0 <= i < |s| && s[i] == c;
      assert s[..|s| - 1][i] == c;
      if p(s[|s| - 1]) {
        StripRightKeeps(s[..|s| - 1], p, c);
      }
    }
  }

  /** `strip` removes only characters of its class. */
  /** Replacing the characters of a class keeps every character outside it. */
  lemma ReplaceEachKeeps(s: string, p: char -> bool, x: char, c: char)
    requires c in s && !p(c)
    ensures c in ReplaceEach(s, p, x)
  {
    var j :| 0 <= j < |s| && s[j] == c;
    assert ReplaceEach(s, p, x)[j] == c;
  }

  lemma StripKeeps(s: string, p: char -> bool, c: char)
    requires c in s && !p(c)
    ensures c in Strip(s, p)
  {
    StripLeftKeeps(s, p, c);
    StripRightKeeps(StripLeft(s, p), p, c);
  }

  /** `strip` leaves nothing exactly when every character is of its class. */
  lemma StripEmpty(s: string, p: char -> bool)
    ensures Strip(s, p) == [] <==> All(s, p)
  {
    if !All(s, p) {
      var i :| 0 <= i < |s| && !p(s[i]);
      StripKeeps(s, p, s[i]);
    }
  }

  lemma StripAll(s: string, p: char -> bool, q: char -> bool)
    requires All(s, q)
    ensures All(Strip(s, p), q)
  {
    var k := StripWindow(s, p);
  }

  lemma StripNoAdjacent(s: string, p: char -> bool, q: char -> bool)
    requires NoAdjacent(s, q)
    ensures NoAdjacent(Strip(s, p), q)
  {
    var k := StripWindow(s, p);
    var r := Strip(s, p);
    forall i | 0 <= i < |r| - 1
      ensures !(q(r[i]) && q(r[i + 1]))
    {
      assert r[i] == s[k + i] && r[i + 1] == s[k + i + 1];
    }
  }

  lemma {:induction false} RemoveAllKeeps(s: string, p: char -> bool, c: char)
    requires c in s && !p(c)
    ensures c in RemoveAll(s, p)
  {
    if s[0] != c {
      assert c in s[1..];
      RemoveAllKeeps(s[1..], p, c);
    }
  }

  lemma {:induction false} RemoveAllAll(s: string, p: char -> bool, q: char -> bool)
    requires forall i :: 0 <= i < |s| && !p(s[i]) ==> q(s[i])
    ensures All(RemoveAll(s, p), q)
  {
    if s != [] {
      assert forall i :: 0 <= i < |s[1..]| ==> s[1..][i] == s[i + 1];
      RemoveAllAll(s[1..], p, q);
    }
  }

  lemma {:induction false} CollapseRunsKeeps(s: string, p: char -> bool, rep: string, c: char)
    requires c in s && !p(c)
    ensures c in CollapseRuns(s, p, rep)
    decreases |s|
  {
    if s[0] == c {
      assert CollapseRuns(s, p, rep) == [c] + CollapseRuns(s[1..], p, rep);
    } else if p(s[0]) {
      StripLeftKeeps(s, p, c);
      CollapseRunsKeeps(StripLeft(s, p), p, rep, c);
    } else {
      assert c in s[1..];
      CollapseRunsKeeps(s[1..], p, rep, c);
    }
  }

  lemma {:induction false} CollapseRunsNoneOf(s: string, p: char -> bool, rep: string)
    requires NoneOf(s, p)
    ensures CollapseRuns(s, p, rep) == s
  {
    if s != [] {
      assert forall i :: 0 <= i < |s[1..]| ==> s[1..][i] == s[i + 1];
      CollapseRunsNoneOf(s[1..], p, rep);
    }
  }

  lemma StripIdentity(s: string, p: char -> bool)
    requires s == [] || (!p(s[0]) && !p(s[|s| - 1]))
    ensures Strip(s, p) == s
  {
  }

  lemma {:induction false} RemoveAllNoneOf(s: string, p: char -> bool)
    requires NoneOf(s, p)
    ensures RemoveAll(s, p) == s
  {
    if s != [] {
      assert forall i :: 0 <= i < |s[1..]| ==> s[1..][i] == s[i + 1];
      RemoveAllNoneOf(s[1..], p);
    }
  }

  lemma ReplaceEachNoneOf(s: string, p: char -> bool, c: char)
    requires NoneOf(s, p)
    ensures ReplaceEach(s, p, c) == s
  {
  }
}
