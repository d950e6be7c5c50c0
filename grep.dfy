/**
  The `grep` routine of src/cli.ts: split the content into lines, scan them
  in order for matches until `maxCount` groups exist, render one context
  group per matching line, and display the groups with separators.

  The specification is given by functions (`MatchesBelow`, `Anchors`,
  `Group`, `Groups`, `Output`, `GrepOutput`); the method `Grep` follows the
  source's loops and is proved to produce `GrepOutput`.
 */
module Grep {
  import opened Lines
  import opened Decimal
  import opened Options

  /**
    The regular-expression engine, left abstract: `engine(pattern, flags, line)`
    says whether `line.match(new RegExp(pattern, flags))` finds a match.
   */
  type Engine = (string, string, string) -> bool

  function Max(a: int, b: int): int
  {
    if a >= b then a else b
  }

  function Min(a: int, b: int): int
  {
    if a <= b then a else b
  }

  /** The line test a search applies: the pattern compiled with the flags the options call for. */
  function Matcher(engine: Engine, pattern: string, o: GrepOptions): (test: string -> bool)
    ensures forall line :: test(line) == engine(pattern, if o.ignoreCase then "gi" else "g", line)
  {
    var flags := RegexFlags(o.ignoreCase);
    assert flags == if o.ignoreCase then "gi" else "g";
    (line: string) => engine(pattern, flags, line)
  }

  // ---------------------------------------------------------------------
  // Scanning

  /** The indices below `i` of the lines that match, in increasing order. */
  function MatchesBelow(lines: seq<string>, test: string -> bool, i: nat): (r: seq<nat>)
    requires i <= |lines|
    ensures |r| <= i
    ensures forall k :: 0 <= k < |r| ==> r[k] < i
  {
    if i == 0 then []
    else MatchesBelow(lines, test, i - 1) + (if test(lines[i - 1]) then [i - 1] else [])
  }

  /** The first `maxCount` elements of `s`, or all of them when `maxCount` is negative. */
  function Limit(s: seq<nat>, maxCount: int): (r: seq<nat>)
    ensures r <= s
    ensures maxCount < 0 ==> r == s
    ensures maxCount >= 0 ==> |r| == Min(maxCount, |s|)
  {
    if 0 <= maxCount < |s| then s[..maxCount] else s
  }

  /** The anchors a search builds groups for: the first `maxCount` matching lines. */
  function Anchors(lines: seq<string>, test: string -> bool, maxCount: int): (r: seq<nat>)
    ensures |r| <= |lines|
    ensures maxCount >= 0 ==> |r| <= maxCount
    ensures forall k :: 0 <= k < |r| ==> r[k] < |lines|
  {
    Limit(MatchesBelow(lines, test, |lines|), maxCount)
  }

  // ---------------------------------------------------------------------
  // Context windows and rendering

  /** The first line shown around anchor `i`; a non-positive `before` shows none before it. */
  function WindowStart(i: nat, before: int): (start: nat)
    ensures start <= i && i - start <= Max(0, before)
    ensures start == 0 || i - start == Max(0, before)
  {
    Max(0, i - Max(0, before))
  }

  /** The last line shown around anchor `i` of `n` lines; a non-positive `after` shows none after it. */
  function WindowEnd(i: nat, after: int, n: nat): (end: nat)
    requires i < n
    ensures i <= end < n && end - i <= Max(0, after)
    ensures end == n - 1 || end - i == Max(0, after)
  {
    Min(n - 1, i + Max(0, after))
  }

  /** Line `j` as displayed: prefixed with its 1-based number and ':' when numbering is on. */
  function RenderLine(lines: seq<string>, j: nat, lineNumber: bool): (r: string)
    requires j < |lines|
    ensures !lineNumber ==> r == lines[j]
    ensures lineNumber ==> |r| > |lines[j]| && r[|r| - |lines[j]|..] == lines[j]
  {
    if lineNumber then ToString(j + 1) + ":" + lines[j] else lines[j]
  }

  /** Lines `a` up to, not including, `b`, as displayed; empty when `a >= b`. */
  function RenderRange(lines: seq<string>, a: nat, b: int, lineNumber: bool): (r: seq<string>)
    requires a < b ==> b <= |lines|
    ensures |r| == Max(0, b - a)
    ensures forall t :: 0 <= t < |r| ==> r[t] == RenderLine(lines, a + t, lineNumber)
  {
    if a >= b then [] else seq(b - a, t requires 0 <= t < b - a => RenderLine(lines, a + t, lineNumber))
  }

  /** The group for anchor `i`: its window's lines in order. */
  function Group(lines: seq<string>, i: nat, o: GrepOptions): (r: seq<string>)
    requires i < |lines|
    ensures |r| == WindowEnd(i, o.afterContext, |lines|) - WindowStart(i, o.beforeContext) + 1
    ensures r[i - WindowStart(i, o.beforeContext)] == RenderLine(lines, i, o.lineNumber)
  {
    RenderRange(lines, WindowStart(i, o.beforeContext), WindowEnd(i, o.afterContext, |lines|) + 1, o.lineNumber)
  }

  /** One group per anchor, in the anchors' order; windows that overlap are not merged. */
  function GroupsOf(lines: seq<string>, anchors: seq<nat>, o: GrepOptions): (r: seq<seq<string>>)
    requires forall k :: 0 <= k < |anchors| ==> anchors[k] < |lines|
    ensures |r| == |anchors|
  {
    seq(|anchors|, k requires 0 <= k < |anchors| => Group(lines, anchors[k], o))
  }

  /** The groups a search over `lines` produces. */
  function Groups(lines: seq<string>, test: string -> bool, o: GrepOptions): (r: seq<seq<string>>)
    ensures |r| <= |lines|
    ensures o.maxCount >= 0 ==> |r| <= o.maxCount
  {
    GroupsOf(lines, Anchors(lines, test, o.maxCount), o)
  }

  // ---------------------------------------------------------------------
  // Display

  /** The text `printLines` displays for a group: its lines joined by '\n', then '\n'. */
  function PrintLines(group: seq<string>): (text: string)
    ensures |text| >= 1 && text[|text| - 1] == '\n'
    ensures |group| >= 1 ==> group[0] <= text
  {
    Join(group) + "\n"
  }

  /** The text `print` displays. */
  function Print(text: string): (shown: string)
    ensures |shown| == |text| + 1 && text <= shown && shown[|text|] == '\n'
  {
    text + "\n"
  }

  /** Whether a separator is displayed after group `k` of `count`. */
  predicate SeparatorAfter(o: GrepOptions, k: nat, count: nat): (after: bool)
    ensures after ==> SeparatorsOn(o) && k + 1 < count
    ensures SeparatorsOn(o) && k + 1 < count ==> after
    ensures !after ==> o.noGroupSeparator || (o.beforeContext <= 0 && o.afterContext <= 0) || k + 1 >= count
  {
    SeparatorsOn(o) && k < count - 1
  }

  /** The texts displayed for the first `k` groups, one entry per display call. */
  function OutputUpTo(groups: seq<seq<string>>, o: GrepOptions, k: nat): (r: seq<string>)
    requires k <= |groups|
    ensures k <= |r| <= 2 * k
  {
    if k == 0 then []
    else
      OutputUpTo(groups, o, k - 1) + [PrintLines(groups[k - 1])]
      + (if SeparatorAfter(o, k - 1, |groups|) then [Print(o.groupSeparator)] else [])
  }

  /** The texts displayed for all the groups. */
  function Output(groups: seq<seq<string>>, o: GrepOptions): (r: seq<string>)
    ensures |groups| <= |r|
    ensures |groups| > 0 ==> |r| < 2 * |groups|
  {
    OutputUpTo(groups, o, |groups|)
  }

  /** Everything one call of `grep` displays for `content`. */
  function GrepOutput(engine: Engine, pattern: string, content: string, o: GrepOptions): (r: seq<string>)
    ensures o.maxCount == 0 ==> r == []
    ensures |r| < 2 * |Split(content)|
  {
    Output(Groups(Split(content), Matcher(engine, pattern, o), o), o)
  }

  // ---------------------------------------------------------------------
  // Facts the method needs

  /** Matches below `i` are a prefix of matches below any larger bound. */
  lemma {:induction false} MatchesBelowPrefix(lines: seq<string>, test: string -> bool, i: nat, m: nat)
    requires i <= m <= |lines|
    ensures MatchesBelow(lines, test, i) <= MatchesBelow(lines, test, m)
  {
    if i < m {
      MatchesBelowPrefix(lines, test, i, m - 1);
    }
  }

  /** Once `maxCount` matches are found below `i`, the anchors are exactly those. */
  lemma LimitReached(lines: seq<string>, test: string -> bool, i: nat, maxCount: int)
    requires i <= |lines|
    requires 0 <= maxCount == |MatchesBelow(lines, test, i)|
    ensures Anchors(lines, test, maxCount) == MatchesBelow(lines, test, i)
  {
    MatchesBelowPrefix(lines, test, i, |lines|);
  }

  /** Adding an anchor adds its group at the end. */
  lemma GroupsOfAppend(lines: seq<string>, anchors: seq<nat>, i: nat, o: GrepOptions)
    requires forall k :: 0 <= k < |anchors| ==> anchors[k] < |lines|
    requires i < |lines|
    ensures GroupsOf(lines, anchors + [i], o) == GroupsOf(lines, anchors, o) + [Group(lines, i, o)]
  {
    var r := GroupsOf(lines, anchors + [i], o);
    assert forall k :: 0 <= k < |anchors| ==> r[k] == GroupsOf(lines, anchors, o)[k];
  }

  lemma RenderRangeAppend(lines: seq<string>, a: nat, b: nat, lineNumber: bool)
    requires a <= b < |lines|
    ensures RenderRange(lines, a, b, lineNumber) + [RenderLine(lines, b, lineNumber)]
      == RenderRange(lines, a, b + 1, lineNumber)
  {
  }

  // ---------------------------------------------------------------------
  // The routine

  /** The body of the scan for a matching line `i`: the two inner loops around the anchor. */
  method RenderGroup(lines: seq<string>, i: nat, options: GrepOptions) returns (output: seq<string>)
    requires i < |lines|
    ensures output == Group(lines, i, options)
  {
    output := [];
    var line := lines[i];
    var min := Max(0, i - options.beforeContext);
    var max := Min(|lines| - 1, i + options.afterContext);

    var j := min;
    while j < i
      invariant min <= j <= Max(min, i)
      invariant output == RenderRange(lines, min, j, options.lineNumber)
    {
      RenderRangeAppend(lines, min, j, options.lineNumber);
      ghost var done := output;
      if options.lineNumber {
        output := output + [ToString(j + 1) + ":" + lines[j]];
      } else {
        output := output + [lines[j]];
      }
      assert output == done + [RenderLine(lines, j, options.lineNumber)];
      j := j + 1;
    }
    ghost var start := WindowStart(i, options.beforeContext);
    assert output == RenderRange(lines, start, i, options.lineNumber);
    RenderRangeAppend(lines, start, i, options.lineNumber);
    ghost var done := output;
    if options.lineNumber {
      output := output + [ToString(i + 1) + ":" + line];
    } else {
      output := output + [line];
    }
    assert output == done + [RenderLine(lines, i, options.lineNumber)];
    j := i + 1;
    while j <= max
      invariant i + 1 <= j <= Max(i + 1, max + 1)
      invariant output == RenderRange(lines, start, j, options.lineNumber)
    {
      RenderRangeAppend(lines, start, j, options.lineNumber);
      ghost var done := output;
      if options.lineNumber {
        output := output + [ToString(j + 1) + ":" + lines[j]];
      } else {
        output := output + [lines[j]];
      }
      assert output == done + [RenderLine(lines, j, options.lineNumber)];
      j := j + 1;
    }
  }

  /** The display loop: each group's lines, then the separator where the positional rule allows it. */
  method DisplayGroups(outputs: seq<seq<string>>, options: GrepOptions) returns (written: seq<string>)
    ensures written == Output(outputs, options)
  {
    written := [];
    var k := 0;
    while k < |outputs|
      invariant 0 <= k <= |outputs|
      invariant written == OutputUpTo(outputs, options, k)
    {
      written := written + [PrintLines(outputs[k])];
      if !options.noGroupSeparator && (options.beforeContext > 0 || options.afterContext > 0)
        && k < |outputs| - 1
      {
        written := written + [Print(options.groupSeparator)];
      }
      k := k + 1;
    }
  }

  /** `grep(pattern, content, options)`: returns the texts it displays, in order. */
  method Grep(engine: Engine, pattern: string, content: string, options: GrepOptions)
    returns (written: seq<string>)
    ensures written == GrepOutput(engine, pattern, content, options)
  {
    var lines := Split(content);
    var outputs: seq<seq<string>> := [];
    var regexFlags := CreateRegexFlags(options);
    ghost var test := Matcher(engine, pattern, options);

    var i := 0;
    while i < |lines|
      invariant 0 <= i <= |lines|
      invariant outputs == GroupsOf(lines, MatchesBelow(lines, test, i), options)
      invariant options.maxCount >= 0 ==> |outputs| <= options.maxCount
    {
      if options.maxCount >= 0 && options.maxCount <= |outputs| {
        LimitReached(lines, test, i, options.maxCount);
        break;
      }
      if engine(pattern, regexFlags, lines[i]) {
        var output := RenderGroup(lines, i, options);
        GroupsOfAppend(lines, MatchesBelow(lines, test, i), i, options);
        outputs := outputs + [output];
      }
      assert test(lines[i]) == engine(pattern, regexFlags, lines[i]);
      assert MatchesBelow(lines, test, i + 1)
        == MatchesBelow(lines, test, i) + (if test(lines[i]) then [i] else []);
      i := i + 1;
    }
    assert outputs == Groups(lines, test, options);

    written := DisplayGroups(outputs, options);
  }
}
