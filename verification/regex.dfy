/** The few shapes of Python regular expressions the inventory code uses.
    In Python's `re`, `.` matches any character except a newline, so every
    `.*` below stops at the end of a line:
    - `re.match(".*P", s)`              -> MatchAnyThen
    - `re.sub(".*P", "", s)`            -> SubAnyThen (P has no newline)
    - `re.sub("C.*", "", s)`            -> SubThenAny (C one character)
    - `re.findall("P(.*?)C", s)[0]`     -> FindGroup(s, P, Some(C))
    - `re.findall("P(.*)", s)[0]`       -> FindGroup(s, P, None)   */
module Regex {
  import opened Wrappers
  import opened Text

  predicate CharEq(a: char, b: char, ci: bool) {
    if ci then LowerChar(a) == LowerChar(b) else a == b
  }

  /** `p` matches at the very start of `s` (case-insensitively when `ci`). */
  predicate PrefixMatch(s: string, p: string, ci: bool) {
    |p| <= |s| && forall k :: 0 <= k < |p| ==> CharEq(s[k], p[k], ci)
  }

  /** `re.match(".*P", s)`: tries P at each position of the first line. */
  function MatchAnyThen(s: string, p: string, ci: bool): bool {
    if PrefixMatch(s, p, ci) then true
    else if |s| == 0 || s[0] == '\n' then false
    else MatchAnyThen(s[1..], p, ci)
  }

  /** P occurs at a position that no newline precedes. */
  ghost predicate OccursInFirstLine(s: string, p: string, ci: bool) {
    exists i :: 0 <= i <= |s| && '\n' !in s[..i] && PrefixMatch(s[i..], p, ci)
  }

  /** P occurs anywhere in `s`. */
  ghost predicate Occurs(s: string, p: string, ci: bool) {
    exists i :: 0 <= i <= |s| && PrefixMatch(s[i..], p, ci)
  }

  /** A scan that succeeds has found an occurrence in the first line. */
  lemma {:induction false} MatchAnyThenFindsOccurrence(s: string, p: string, ci: bool) returns (i: nat)
    requires MatchAnyThen(s, p, ci)
    ensures i <= |s| && '\n' !in s[..i] && PrefixMatch(s[i..], p, ci)
  {
    if PrefixMatch(s, p, ci) {
      i := 0;
      assert s[0..] == s;
    } else {
      var j := MatchAnyThenFindsOccurrence(s[1..], p, ci);
      i := j + 1;
      assert s[i..] == s[1..][j..];
      assert s[..i] == [s[0]] + s[1..][..j];
    }
  }

  /** An occurrence in the first line is found by the scan. */
  lemma {:induction false} OccurrenceFoundByMatchAnyThen(s: string, p: string, ci: bool, i: nat)
    requires i <= |s| && '\n' !in s[..i] && PrefixMatch(s[i..], p, ci)
    ensures MatchAnyThen(s, p, ci)
  {
    if i == 0 {
      assert s[0..] == s;
    } else if !PrefixMatch(s, p, ci) {
      assert s[..i][0] == s[0];
      assert s[1..][i - 1..] == s[i..];
      assert s[1..][..i - 1] == s[..i][1..];
      OccurrenceFoundByMatchAnyThen(s[1..], p, ci, i - 1);
    }
  }

  lemma MatchAnyThenMeansFirstLine(s: string, p: string, ci: bool)
    ensures MatchAnyThen(s, p, ci) <==> OccursInFirstLine(s, p, ci)
  {
    if MatchAnyThen(s, p, ci) {
      var i := MatchAnyThenFindsOccurrence(s, p, ci);
    }
    if OccursInFirstLine(s, p, ci) {
      var i :| 0 <= i <= |s| && '\n' !in s[..i] && PrefixMatch(s[i..], p, ci);
      OccurrenceFoundByMatchAnyThen(s, p, ci, i);
    }
  }

  /** On a single line, `re.match(".*P", s)` is a plain "contains" test. */
  lemma SingleLineMatchIsContains(s: string, p: string, ci: bool)
    requires '\n' !in s
    ensures MatchAnyThen(s, p, ci) <==> Occurs(s, p, ci)
  {
    MatchAnyThenMeansFirstLine(s, p, ci);
    if Occurs(s, p, ci) {
      var i :| 0 <= i <= |s| && PrefixMatch(s[i..], p, ci);
      assert '\n' !in s[..i];
    }
  }

  /** The last position at or before `i` where `p` occurs exactly. */
  function LastAtOrBefore(s: string, p: string, i: int): (r: Option<nat>)
    requires i <= |s|
    ensures r.Some? ==> r.value <= i && PrefixMatch(s[r.value..], p, false)
    ensures r.Some? ==> forall j :: r.value < j <= i ==> !PrefixMatch(s[j..], p, false)
    ensures r.None? ==> forall j :: 0 <= j <= i ==> !PrefixMatch(s[j..], p, false)
    decreases i + 1
  {
    if i < 0 then None
    else if PrefixMatch(s[i..], p, false) then Some(i)
    else LastAtOrBefore(s, p, i - 1)
  }

  /** What `.*P` leaves of one line: the text after the last P, or the whole
      line when P does not occur in it. */
  function StripThroughLast(line: string, p: string): string {
    match LastAtOrBefore(line, p, |line|)
    case Some(j) => line[j + |p|..]
    case None => line
  }

  /** What `.*P` leaves of a line is a suffix of it: the whole line when P
      does not occur, and otherwise the text after an occurrence of P that
      holds no further (non-empty) P. */
  lemma StripThroughLastSpec(line: string, p: string)
    ensures var r := StripThroughLast(line, p);
            && |r| <= |line| && line[|line| - |r|..] == r
            && (!Occurs(line, p, false) ==> r == line)
            && (Occurs(line, p, false) ==>
                  |r| + |p| <= |line| && line[|line| - |r| - |p|..|line| - |r|] == p
                  && (|p| > 0 ==> !Occurs(r, p, false)))
  {
    match LastAtOrBefore(line, p, |line|)
    case None =>
      assert forall i :: 0 <= i <= |line| ==> !PrefixMatch(line[i..], p, false);
    case Some(j) =>
      var r := line[j + |p|..];
      assert Occurs(line, p, false) by {
        assert 0 <= j <= |line| && PrefixMatch(line[j..], p, false);
      }
      assert line[j..j + |p|] == p by {
        forall k | 0 <= k < |p| ensures line[j..j + |p|][k] == p[k] {
          assert line[j..][k] == line[j + k];
        }
      }
      if |p| > 0 {
        forall k | 0 <= k <= |r| ensures !PrefixMatch(r[k..], p, false) {
          assert r[k..] == line[j + |p| + k..];
        }
      }
  }

  /** What `C.*` leaves of one line: the text before the first C. */
  function CutFromFirst(line: string, c: char): (r: string)
    ensures c !in r
    ensures r <= line
    ensures |r| < |line| ==> line[|r|] == c
  {
    if |line| == 0 || line[0] == c then "" else [line[0]] + CutFromFirst(line[1..], c)
  }

  function MapLines(lines: seq<string>, f: string -> string): (r: seq<string>)
    ensures |r| == |lines|
    ensures forall k :: 0 <= k < |lines| ==> r[k] == f(lines[k])
  {
    seq(|lines|, k requires 0 <= k < |lines| => f(lines[k]))
  }

  /** `re.sub(".*P", "", s)`: each line loses everything through its last P. */
  function SubAnyThen(s: string, p: string): string {
    Join(MapLines(Split(s, '\n'), line => StripThroughLast(line, p)), '\n')
  }

  /** `re.sub("C.*", "", s)`: each line loses everything from its first C. */
  function SubThenAny(s: string, c: char): string {
    Join(MapLines(Split(s, '\n'), line => CutFromFirst(line, c)), '\n')
  }

  lemma SubAnyThenSingleLine(s: string, p: string)
    requires '\n' !in s
    ensures SubAnyThen(s, p) == StripThroughLast(s, p)
  {
    SplitWithoutSeparator(s, '\n');
  }

  lemma SubThenAnySingleLine(s: string, c: char)
    requires '\n' !in s
    ensures SubThenAny(s, c) == CutFromFirst(s, c)
  {
    SplitWithoutSeparator(s, '\n');
  }

  /** The group captured after P: with no stop character, `(.*)` takes the
      rest of the line; with stop C, `(.*?)C` takes the text up to the first
      C, provided no newline comes first. */
  function GroupAfter(t: string, stop: Option<char>): (r: Option<string>)
    ensures r.Some? ==> '\n' !in r.value && r.value <= t
    ensures r.Some? && stop.Some? ==> stop.value !in r.value && |r.value| < |t| && t[|r.value|] == stop.value
    ensures stop.None? ==> r == Some(CutFromFirst(t, '\n'))
  {
    match stop
    case None => Some(CutFromFirst(t, '\n'))
    case Some(c) =>
      if |t| == 0 || t[0] == '\n' then None
      else if t[0] == c then Some("")
      else match GroupAfter(t[1..], stop)
        case None => None
        case Some(g) => Some([t[0]] + g)
  }

  /** The group of a match of P starting at position `k` of `s`, if any. */
  function GroupAt(s: string, k: nat, p: string, stop: Option<char>): Option<string> {
    if k + |p| <= |s| && s[k..k + |p|] == p then GroupAfter(s[k + |p|..], stop) else None
  }

  /** The leftmost match at or after position `i`: its start and its group. */
  function FindFrom(s: string, p: string, stop: Option<char>, i: nat): (r: Option<(nat, string)>)
    requires i <= |s|
    ensures r.Some? ==> i <= r.value.0 <= |s| && GroupAt(s, r.value.0, p, stop) == Some(r.value.1)
    ensures r.Some? ==> forall k :: i <= k < r.value.0 ==> GroupAt(s, k, p, stop).None?
    ensures r.None? ==> forall k :: i <= k <= |s| ==> GroupAt(s, k, p, stop).None?
    decreases |s| - i
  {
    match GroupAt(s, i, p, stop)
    case Some(g) => Some((i, g))
    case None => if i == |s| then None else FindFrom(s, p, stop, i + 1)
  }

  /** `re.findall(...)[0]`: the group of the leftmost match; None where
      Python raises IndexError. */
  function FindGroup(s: string, p: string, stop: Option<char>): Option<string> {
    match FindFrom(s, p, stop, 0)
    case Some((_, g)) => Some(g)
    case None => None
  }

  /** A lazy group that ends at its stop character is read back whole. */
  lemma {:induction false} GroupAfterStop(g: string, c: char, rest: string)
    requires c != '\n' && c !in g && '\n' !in g
    ensures GroupAfter(g + [c] + rest, Some(c)) == Some(g)
  {
    var t := g + [c] + rest;
    if |g| > 0 {
      assert t[1..] == g[1..] + [c] + rest;
      GroupAfterStop(g[1..], c, rest);
      assert [g[0]] + g[1..] == g;
    }
  }

  /** A greedy group that is the rest of a single line is read back whole. */
  lemma {:induction false} GroupAfterLine(g: string)
    requires '\n' !in g
    ensures GroupAfter(g, None) == Some(g)
  {
    if |g| > 0 {
      assert '\n' !in g[1..] by {
        assert forall k :: 0 <= k < |g[1..]| ==> g[1..][k] == g[k + 1];
      }
      GroupAfterLine(g[1..]);
      assert [g[0]] + g[1..] == g;
    }
  }

  /** Extraction inverts construction: when P does not start anywhere in
      `pre`, the first match in `pre + P + t` is the one right after `pre`,
      and its group is whatever `GroupAfter` reads from `t`. */
  lemma FindGroupAfterPrefix(pre: string, p: string, t: string, stop: Option<char>)
    requires forall j :: 0 <= j < |pre| ==> !PrefixMatch((pre + p)[j..], p, false)
    requires GroupAfter(t, stop).Some?
    ensures FindGroup(pre + p + t, p, stop) == GroupAfter(t, stop)
  {
    var s := pre + p + t;
    assert s[|pre|..|pre| + |p|] == p;
    assert s[|pre| + |p|..] == t;
    forall j | 0 <= j < |pre| ensures GroupAt(s, j, p, stop).None? {
      assert j + |p| <= |pre + p| <= |s|;
      assert forall k :: 0 <= k < |p| ==> (pre + p)[j..][k] == s[j..j + |p|][k];
      assert s[j..j + |p|] != p;
    }
    var r := FindFrom(s, p, stop, 0);
    assert GroupAt(s, |pre|, p, stop).Some?;
  }

  /** Cutting at the first C of `t + [C] + w` gives back `t` when C is not in `t`. */
  lemma {:induction false} CutFromFirstOfBuilt(t: string, c: char, w: string)
    requires c !in t
    ensures CutFromFirst(t + [c] + w, c) == t
  {
    if |t| > 0 {
      assert (t + [c] + w)[1..] == t[1..] + [c] + w;
      assert c !in t[1..] by {
        assert forall k :: 0 <= k < |t[1..]| ==> t[1..][k] == t[k + 1];
      }
      CutFromFirstOfBuilt(t[1..], c, w);
      assert [t[0]] + t[1..] == t;
    }
  }

  /** A line without C is not cut. */
  lemma {:induction false} CutFromFirstAbsent(line: string, c: char)
    requires c !in line
    ensures CutFromFirst(line, c) == line
  {
    if |line| > 0 {
      assert c !in line[1..] by {
        assert forall k :: 0 <= k < |line[1..]| ==> line[1..][k] == line[k + 1];
      }
      CutFromFirstAbsent(line[1..], c);
      assert [line[0]] + line[1..] == line;
    }
  }

  /** Stripping through the last C of `t + [C] + w` gives back `w` when C is not in `w`. */
  lemma StripThroughLastOfBuilt(t: string, c: char, w: string)
    requires c !in w
    ensures StripThroughLast(t + [c] + w, [c]) == w
  {
    var v := t + [c] + w;
    assert PrefixMatch(v[|t|..], [c], false);
    forall j | |t| < j <= |v| ensures !PrefixMatch(v[j..], [c], false) {
      if j < |v| {
        assert v[j] == w[j - |t| - 1];
      }
    }
    assert v[|t| + 1..] == w;
  }

  /** A line without C is not stripped. */
  lemma StripThroughLastAbsent(line: string, c: char)
    requires c !in line
    ensures StripThroughLast(line, [c]) == line
  {
    forall j | 0 <= j <= |line| ensures !PrefixMatch(line[j..], [c], false) {
      if j < |line| {
        assert line[j] in line;
      }
    }
  }
}
