/**
  What a search promises, proved about the specification functions of
  module Grep (and therefore, through `Grep.Grep`'s postcondition, about the
  routine itself).
 */
module GrepProperties {
  import opened Lines
  import opened Decimal
  import opened Options
  import opened Grep

  // ---------------------------------------------------------------------
  // Scanning: which lines become anchors

  /** The matches below `i` are exactly the matching lines below `i`, in strictly increasing order. */
  lemma {:induction false} MatchesBelowExact(lines: seq<string>, test: string -> bool, i: nat)
    requires i <= |lines|
    ensures forall j :: j in MatchesBelow(lines, test, i) <==> 0 <= j < i && test(lines[j])
    ensures forall a, b :: 0 <= a < b < |MatchesBelow(lines, test, i)| ==>
      MatchesBelow(lines, test, i)[a] < MatchesBelow(lines, test, i)[b]
  {
    if i > 0 {
      MatchesBelowExact(lines, test, i - 1);
    }
  }

  /**
    The anchors are the first matching lines in line order: all of them when
    `maxCount` is negative, otherwise the first `maxCount` (all, if fewer match).
    A matching line that is left out comes after every anchor.
   */
  lemma AnchorsAreFirstMatches(lines: seq<string>, test: string -> bool, maxCount: int)
    ensures Anchors(lines, test, maxCount) <= MatchesBelow(lines, test, |lines|)
    ensures maxCount < 0 ==> Anchors(lines, test, maxCount) == MatchesBelow(lines, test, |lines|)
    ensures maxCount >= 0 ==>
      |Anchors(lines, test, maxCount)| == Min(maxCount, |MatchesBelow(lines, test, |lines|)|)
    ensures forall k :: 0 <= k < |Anchors(lines, test, maxCount)| ==>
      test(lines[Anchors(lines, test, maxCount)[k]])
    ensures forall a, b :: 0 <= a < b < |Anchors(lines, test, maxCount)| ==>
      Anchors(lines, test, maxCount)[a] < Anchors(lines, test, maxCount)[b]
    ensures forall j :: 0 <= j < |lines| && test(lines[j]) && j !in Anchors(lines, test, maxCount) ==>
      0 <= maxCount == |Anchors(lines, test, maxCount)| &&
      forall k :: 0 <= k < maxCount ==> Anchors(lines, test, maxCount)[k] < j
  {
    var all := MatchesBelow(lines, test, |lines|);
    var r := Anchors(lines, test, maxCount);
    MatchesBelowExact(lines, test, |lines|);
    forall j | 0 <= j < |lines| && test(lines[j]) && j !in r
      ensures 0 <= maxCount == |r| && forall k :: 0 <= k < maxCount ==> r[k] < j
    {
      assert j in all;
      var p :| 0 <= p < |all| && all[p] == j;
      assert 0 <= maxCount < |all| && p >= maxCount;
      forall k | 0 <= k < maxCount ensures r[k] < j {
        assert r[k] == all[k];
      }
    }
  }

  /** A limit of zero yields no groups, and no limit never drops a group. */
  lemma GroupCount(lines: seq<string>, test: string -> bool, o: GrepOptions)
    ensures o.maxCount >= 0 ==> |Groups(lines, test, o)| <= o.maxCount
    ensures o.maxCount == 0 ==> Groups(lines, test, o) == []
    ensures o.maxCount < 0 ==> |Groups(lines, test, o)| == |MatchesBelow(lines, test, |lines|)|
    ensures forall k :: 0 <= k < |Groups(lines, test, o)| ==>
      Groups(lines, test, o)[k] == Group(lines, Anchors(lines, test, o.maxCount)[k], o)
  {
    AnchorsAreFirstMatches(lines, test, o.maxCount);
  }

  // ---------------------------------------------------------------------
  // Context windows

  /**
    The group for anchor `i` is the window's lines in increasing order, the
    anchor among them; with non-negative context sizes the window is
    `[max(0, i - before), min(last, i + after)]` and has
    `min(i, before) + 1 + min(last - i, after)` lines.
   */
  lemma GroupWindow(lines: seq<string>, i: nat, o: GrepOptions)
    requires i < |lines|
    ensures var s, e := WindowStart(i, o.beforeContext), WindowEnd(i, o.afterContext, |lines|);
      && 0 <= s <= i <= e < |lines|
      && |Group(lines, i, o)| == (i - s) + 1 + (e - i)
      && (forall t :: 0 <= t < |Group(lines, i, o)| ==> Group(lines, i, o)[t] == RenderLine(lines, s + t, o.lineNumber))
      && Group(lines, i, o)[i - s] == RenderLine(lines, i, o.lineNumber)
      && (o.beforeContext >= 0 ==> s == Max(0, i - o.beforeContext))
      && (o.afterContext >= 0 ==> e == Min(|lines| - 1, i + o.afterContext))
      && (o.beforeContext <= 0 ==> s == i)
      && (o.afterContext <= 0 ==> e == i)
    ensures o.beforeContext >= 0 && o.afterContext >= 0 ==>
      |Group(lines, i, o)| == Min(i, o.beforeContext) + 1 + Min(|lines| - 1 - i, o.afterContext)
  {
  }

  /**
    A line's rendering does not depend on the window it appears in: two
    groups that both show line `j` show it identically.
   */
  lemma NumberingStable(lines: seq<string>, i1: nat, o1: GrepOptions, i2: nat, o2: GrepOptions, j: nat)
    requires i1 < |lines| && i2 < |lines| && o1.lineNumber == o2.lineNumber
    requires WindowStart(i1, o1.beforeContext) <= j <= WindowEnd(i1, o1.afterContext, |lines|)
    requires WindowStart(i2, o2.beforeContext) <= j <= WindowEnd(i2, o2.afterContext, |lines|)
    ensures Group(lines, i1, o1)[j - WindowStart(i1, o1.beforeContext)]
      == Group(lines, i2, o2)[j - WindowStart(i2, o2.beforeContext)]
      == RenderLine(lines, j, o1.lineNumber)
  {
    GroupWindow(lines, i1, o1);
    GroupWindow(lines, i2, o2);
  }

  /**
    With numbering on, a displayed line is the canonical numeral of its
    1-based index, a ':', then the line unchanged; the number reads back as
    `j + 1`. With numbering off it is the line unchanged.
   */
  lemma RenderedLineNumber(lines: seq<string>, j: nat)
    requires j < |lines|
    ensures RenderLine(lines, j, false) == lines[j]
    ensures var r, p := RenderLine(lines, j, true), |ToString(j + 1)|;
      && p < |r| && r[p] == ':' && ':' !in r[..p]
      && Canonical(r[..p]) && Parse(r[..p]) == j + 1
      && r[p + 1..] == lines[j]
  {
    var r, p := RenderLine(lines, j, true), |ToString(j + 1)|;
    assert r[..p] == ToString(j + 1);
    ParseToString(j + 1);
  }

  // ---------------------------------------------------------------------
  // Display and separators

  lemma {:induction false} OutputUpToOff(groups: seq<seq<string>>, o: GrepOptions, k: nat)
    requires k <= |groups| && !SeparatorsOn(o)
    ensures |OutputUpTo(groups, o, k)| == k
    ensures forall m :: 0 <= m < k ==> OutputUpTo(groups, o, k)[m] == PrintLines(groups[m])
  {
    if k > 0 {
      OutputUpToOff(groups, o, k - 1);
    }
  }

  lemma {:induction false} OutputUpToOn(groups: seq<seq<string>>, o: GrepOptions, k: nat)
    requires k < |groups| && SeparatorsOn(o)
    ensures |OutputUpTo(groups, o, k)| == 2 * k
    ensures forall m :: 0 <= m < k ==>
      OutputUpTo(groups, o, k)[2 * m] == PrintLines(groups[m]) &&
      OutputUpTo(groups, o, k)[2 * m + 1] == Print(o.groupSeparator)
  {
    if k > 0 {
      OutputUpToOn(groups, o, k - 1);
      var prev := OutputUpTo(groups, o, k - 1);
      var cur := OutputUpTo(groups, o, k);
      assert cur == prev + [PrintLines(groups[k - 1])] + [Print(o.groupSeparator)];
      forall m | 0 <= m < k
        ensures cur[2 * m] == PrintLines(groups[m]) && cur[2 * m + 1] == Print(o.groupSeparator)
      {
        if m < k - 1 {
          assert cur[2 * m] == prev[2 * m] && cur[2 * m + 1] == prev[2 * m + 1];
        }
      }
    }
  }

  /**
    The display is the groups' blocks in order. When separators are on, a
    separator line stands between every two consecutive blocks and nowhere
    else (|groups| - 1 of them); otherwise there is none.
   */
  lemma OutputShape(groups: seq<seq<string>>, o: GrepOptions)
    ensures groups == [] ==> Output(groups, o) == []
    ensures SeparatorsOn(o) && groups != [] ==>
      && |Output(groups, o)| == 2 * |groups| - 1
      && (forall k :: 0 <= k < |groups| ==> Output(groups, o)[2 * k] == PrintLines(groups[k]))
      && (forall k :: 0 <= k < |groups| - 1 ==> Output(groups, o)[2 * k + 1] == Print(o.groupSeparator))
    ensures !SeparatorsOn(o) ==>
      && |Output(groups, o)| == |groups|
      && (forall k :: 0 <= k < |groups| ==> Output(groups, o)[k] == PrintLines(groups[k]))
  {
    if SeparatorsOn(o) && groups != [] {
      var n := |groups|;
      OutputUpToOn(groups, o, n - 1);
      var prev := OutputUpTo(groups, o, n - 1);
      assert Output(groups, o) == prev + [PrintLines(groups[n - 1])];
    } else if !SeparatorsOn(o) {
      OutputUpToOff(groups, o, |groups|);
    }
  }

  /** A block is the group's lines joined by '\n' and closed by '\n'; a separator is its text and '\n'. */
  lemma BlockText(group: seq<string>, separator: string)
    requires forall t :: 0 <= t < |group| ==> NoNewline(group[t])
    requires |group| >= 1
    ensures Split(PrintLines(group)) == group + [""]
    ensures Print(separator)[..|separator|] == separator && Print(separator)[|separator|] == '\n'
  {
    var text := PrintLines(group);
    var lines := group + [""];
    assert Join(lines) == text by {
      JoinAppendEmpty(group);
    }
    forall t | 0 <= t < |lines| ensures NoNewline(lines[t]) {
      if t < |group| { assert lines[t] == group[t]; }
    }
    SplitJoin(lines);
  }

  /** A rendered line holds no terminator when its line holds none: a numeral is digits and ':' is not '\n'. */
  lemma RenderLineNoNewline(lines: seq<string>, j: nat, lineNumber: bool)
    requires j < |lines| && NoNewline(lines[j])
    ensures NoNewline(RenderLine(lines, j, lineNumber))
  {
    if lineNumber {
      var num := ToString(j + 1);
      var r := RenderLine(lines, j, true);
      assert r == num + ":" + lines[j];
      forall k | 0 <= k < |r| ensures r[k] != '\n' {
        if k < |num| {
          assert IsDigit(num[k]);
        } else if k > |num| {
          assert r[k] == lines[j][k - |num| - 1];
        }
      }
    }
  }

  /**
    Every line of a group a search builds is free of terminators, so the
    block displayed for it splits back into exactly the group's lines.
   */
  lemma GroupBlock(content: string, i: nat, o: GrepOptions)
    requires i < |Split(content)|
    ensures forall t :: 0 <= t < |Group(Split(content), i, o)| ==> NoNewline(Group(Split(content), i, o)[t])
    ensures Split(PrintLines(Group(Split(content), i, o))) == Group(Split(content), i, o) + [""]
  {
    var lines := Split(content);
    var g := Group(lines, i, o);
    var s := WindowStart(i, o.beforeContext);
    SplitNoNewline(content);
    forall t | 0 <= t < |g| ensures NoNewline(g[t]) {
      RenderLineNoNewline(lines, s + t, o.lineNumber);
    }
    BlockText(g, o.groupSeparator);
  }

  lemma {:induction false} JoinAppendEmpty(lines: seq<string>)
    requires |lines| >= 1
    ensures Join(lines + [""]) == Join(lines) + "\n"
  {
    if |lines| == 1 {
      assert lines + [""] == [lines[0], ""];
      assert Join([""]) == "";
    } else {
      JoinAppendEmpty(lines[1..]);
      assert (lines + [""])[1..] == lines[1..] + [""];
    }
  }

  // ---------------------------------------------------------------------
  // The whole routine

  /** No line passes the test. */
  predicate NoneMatch(lines: seq<string>, test: string -> bool)
  {
    forall j :: 0 <= j < |lines| ==> !test(lines[j])
  }

  /** Nothing is displayed exactly when the limit is zero or no line matches. */
  lemma NothingDisplayed(engine: Engine, pattern: string, content: string, o: GrepOptions)
    ensures GrepOutput(engine, pattern, content, o) == [] <==>
      o.maxCount == 0 || NoneMatch(Split(content), Matcher(engine, pattern, o))
  {
    var lines := Split(content);
    var test := Matcher(engine, pattern, o);
    var groups := Groups(lines, test, o);
    var all := MatchesBelow(lines, test, |lines|);
    OutputShape(groups, o);
    MatchesBelowExact(lines, test, |lines|);
    AnchorsAreFirstMatches(lines, test, o.maxCount);
    if !NoneMatch(lines, test) {
      var j :| 0 <= j < |lines| && test(lines[j]);
      assert j in all;
    } else if all != [] {
      assert all[0] in all;
    }
  }

  /** A group without context or numbering is the anchor line alone. */
  lemma PlainGroup(lines: seq<string>, i: nat, o: GrepOptions)
    requires i < |lines|
    requires o.beforeContext <= 0 && o.afterContext <= 0 && !o.lineNumber
    ensures Group(lines, i, o) == [lines[i]]
  {
  }

  /**
    Without context, numbering or limit, the display is every matching line
    followed by '\n', in line order: the plain behaviour of grep.
   */
  lemma PlainSearch(engine: Engine, pattern: string, content: string, o: GrepOptions)
    requires o.beforeContext <= 0 && o.afterContext <= 0 && !o.lineNumber && o.maxCount < 0
    ensures var lines, all := Split(content), MatchesBelow(Split(content), Matcher(engine, pattern, o), |Split(content)|);
      GrepOutput(engine, pattern, content, o) == seq(|all|, k requires 0 <= k < |all| => lines[all[k]] + "\n")
  {
    PlainSearchLines(Split(content), Matcher(engine, pattern, o), o);
  }

  lemma PlainSearchLines(lines: seq<string>, test: string -> bool, o: GrepOptions)
    requires o.beforeContext <= 0 && o.afterContext <= 0 && !o.lineNumber && o.maxCount < 0
    ensures var all := MatchesBelow(lines, test, |lines|);
      Output(Groups(lines, test, o), o) == seq(|all|, k requires 0 <= k < |all| => lines[all[k]] + "\n")
  {
    var all := MatchesBelow(lines, test, |lines|);
    var groups := Groups(lines, test, o);
    var out := Output(groups, o);
    assert Anchors(lines, test, o.maxCount) == all;
    assert groups == GroupsOf(lines, all, o);
    OutputUpToOff(groups, o, |groups|);
    assert |out| == |groups| == |all|;
    forall k | 0 <= k < |all| ensures out[k] == lines[all[k]] + "\n" {
      PlainGroup(lines, all[k], o);
      assert groups[k] == [lines[all[k]]];
      assert out[k] == PrintLines([lines[all[k]]]);
      assert Join([lines[all[k]]]) == lines[all[k]];
    }
  }
}
