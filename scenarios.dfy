/**
  Concrete searches worked through the specification, with a literal
  substring test standing in for the regular-expression engine.
 */
module Scenarios {
  import opened Lines
  import Decimal
  import opened Options
  import opened Grep

  /** Whether `pattern` occurs in `line`. */
  function Contains(line: string, pattern: string): bool
  {
    if pattern <= line then true
    else if |line| == 0 then false
    else Contains(line[1..], pattern)
  }

  /** An engine that matches a pattern made of plain characters. */
  function Literal(): Engine
  {
    (pattern: string, flags: string, line: string) => Contains(line, pattern)
  }

  /** The options after resolving the given context sizes, with every other flag at its default. */
  function ContextOptions(before: int, after: int): GrepOptions
  {
    GrepOptions(
      ignoreCase := false, lineNumber := false, maxCount := -1,
      beforeContext := before, afterContext := after,
      groupSeparator := "--", noGroupSeparator := false)
  }

  /** A trailing terminator yields an empty last line. */
  lemma TrailingNewline()
    ensures Split("a\nb\n") == ["a", "b", ""]
  {
    var lines := ["a", "b", ""];
    assert Join(lines) == "a\nb\n" by {
      assert Join(lines[2..]) == "";
      assert Join(lines[1..]) == "b\n";
    }
    assert forall k :: 0 <= k < |lines| ==> NoNewline(lines[k]) by {
      assert NoNewline("a") && NoNewline("b") && NoNewline("");
    }
    SplitJoin(lines);
  }

  /** The lines of `"a\nb\nMATCH\nc\nd"`. */
  lemma SplitFirstText()
    ensures Split("a\nb\nMATCH\nc\nd") == ["a", "b", "MATCH", "c", "d"]
  {
    var lines := ["a", "b", "MATCH", "c", "d"];
    assert Join(lines) == "a\nb\nMATCH\nc\nd" by {
      assert Join(lines[4..]) == "d";
      assert Join(lines[3..]) == "c\nd";
      assert Join(lines[2..]) == "MATCH\nc\nd";
      assert Join(lines[1..]) == "b\nMATCH\nc\nd";
    }
    assert forall k :: 0 <= k < |lines| ==> NoNewline(lines[k]) by {
      assert NoNewline("a") && NoNewline("b") && NoNewline("MATCH") && NoNewline("c") && NoNewline("d");
    }
    SplitJoin(lines);
  }

  /** The lines of `"x\nMATCH\ny\nMATCH\nz"`. */
  lemma SplitSecondText()
    ensures Split("x\nMATCH\ny\nMATCH\nz") == ["x", "MATCH", "y", "MATCH", "z"]
  {
    var lines := ["x", "MATCH", "y", "MATCH", "z"];
    assert Join(lines) == "x\nMATCH\ny\nMATCH\nz" by {
      assert Join(lines[4..]) == "z";
      assert Join(lines[3..]) == "MATCH\nz";
      assert Join(lines[2..]) == "y\nMATCH\nz";
      assert Join(lines[1..]) == "MATCH\ny\nMATCH\nz";
    }
    assert forall k :: 0 <= k < |lines| ==> NoNewline(lines[k]) by {
      assert NoNewline("x") && NoNewline("y") && NoNewline("MATCH") && NoNewline("z");
    }
    SplitJoin(lines);
  }

  /** In the lines of `"a\nb\nMATCH\nc\nd"` only line 2 (0-based) contains "MATCH". */
  lemma FirstTextMatches(o: GrepOptions)
    ensures Anchors(["a", "b", "MATCH", "c", "d"], Matcher(Literal(), "MATCH", o), -1) == [2]
  {
    var lines := ["a", "b", "MATCH", "c", "d"];
    var test := Matcher(Literal(), "MATCH", o);
    assert !Contains("a", "MATCH") && !Contains("b", "MATCH") && !Contains("c", "MATCH") && !Contains("d", "MATCH");
    assert Contains("MATCH", "MATCH");
    assert MatchesBelow(lines, test, 2) == [];
    assert MatchesBelow(lines, test, 5) == [2];
  }

  /** In the lines of `"x\nMATCH\ny\nMATCH\nz"` lines 1 and 3 (0-based) contain "MATCH". */
  lemma SecondTextMatches(o: GrepOptions)
    ensures Anchors(["x", "MATCH", "y", "MATCH", "z"], Matcher(Literal(), "MATCH", o), -1) == [1, 3]
  {
    var lines := ["x", "MATCH", "y", "MATCH", "z"];
    var test := Matcher(Literal(), "MATCH", o);
    assert !Contains("x", "MATCH") && !Contains("y", "MATCH") && !Contains("z", "MATCH");
    assert Contains("MATCH", "MATCH");
    assert MatchesBelow(lines, test, 2) == [1];
    assert MatchesBelow(lines, test, 5) == [1, 3];
  }

  /** The lines a, b, MATCH, c, d with one line of context: a single group of three lines. */
  lemma FirstTextDisplay(o: GrepOptions)
    requires o == ContextOptions(1, 1)
    ensures Output(Groups(["a", "b", "MATCH", "c", "d"], Matcher(Literal(), "MATCH", o), o), o)
      == ["b\nMATCH\nc\n"]
  {
    var lines := ["a", "b", "MATCH", "c", "d"];
    var test := Matcher(Literal(), "MATCH", o);
    FirstTextMatches(o);
    assert Anchors(lines, test, o.maxCount) == [2];
    var g := Group(lines, 2, o);
    assert g == ["b", "MATCH", "c"];
    var groups := Groups(lines, test, o);
    assert groups == GroupsOf(lines, [2], o);
    assert |groups| == 1 && groups[0] == g;
    assert groups == [g];
    assert Join(["b", "MATCH", "c"]) == "b\nMATCH\nc";
    assert PrintLines(g) == "b\nMATCH\nc\n";
    assert !SeparatorAfter(o, 0, 1);
  }

  /** A match in the middle, one line of context on each side. */
  lemma OneGroupWithContext()
    ensures GrepOutput(Literal(), "MATCH", "a\nb\nMATCH\nc\nd", ContextOptions(1, 1)) == ["b\nMATCH\nc\n"]
  {
    SplitFirstText();
    FirstTextDisplay(ContextOptions(1, 1));
  }

  /** The lines x, MATCH, y, MATCH, z without context: two single-line blocks, no separator. */
  lemma SecondTextDisplayPlain(o: GrepOptions)
    requires o == ContextOptions(0, 0)
    ensures Output(Groups(["x", "MATCH", "y", "MATCH", "z"], Matcher(Literal(), "MATCH", o), o), o)
      == ["MATCH\n", "MATCH\n"]
  {
    var lines := ["x", "MATCH", "y", "MATCH", "z"];
    var test := Matcher(Literal(), "MATCH", o);
    SecondTextMatches(o);
    assert Anchors(lines, test, o.maxCount) == [1, 3];
    var g1, g3 := Group(lines, 1, o), Group(lines, 3, o);
    var groups := Groups(lines, test, o);
    assert groups == GroupsOf(lines, [1, 3], o);
    assert |groups| == 2 && groups[0] == g1 && groups[1] == g3;
    assert g1 == ["MATCH"] && g3 == ["MATCH"];
    assert !SeparatorsOn(o);
    assert Join(["MATCH"]) == "MATCH";
    assert PrintLines(g1) == "MATCH\n" && PrintLines(g3) == "MATCH\n";
    assert OutputUpTo(groups, o, 1) == ["MATCH\n"];
  }

  /** The lines x, MATCH, y, MATCH, z with one line of context: two overlapping groups and a separator. */
  lemma SecondTextDisplayContext(o: GrepOptions)
    requires o == ContextOptions(1, 1)
    ensures Output(Groups(["x", "MATCH", "y", "MATCH", "z"], Matcher(Literal(), "MATCH", o), o), o)
      == ["x\nMATCH\ny\n", "--\n", "y\nMATCH\nz\n"]
  {
    var lines := ["x", "MATCH", "y", "MATCH", "z"];
    var test := Matcher(Literal(), "MATCH", o);
    SecondTextMatches(o);
    assert Anchors(lines, test, o.maxCount) == [1, 3];
    var g1, g3 := Group(lines, 1, o), Group(lines, 3, o);
    var groups := Groups(lines, test, o);
    assert groups == GroupsOf(lines, [1, 3], o);
    assert |groups| == 2 && groups[0] == g1 && groups[1] == g3;
    assert g1 == ["x", "MATCH", "y"] && g3 == ["y", "MATCH", "z"];
    assert Join(["x", "MATCH", "y"]) == "x\nMATCH\ny";
    assert Join(["y", "MATCH", "z"]) == "y\nMATCH\nz";
    assert PrintLines(g1) == "x\nMATCH\ny\n" && PrintLines(g3) == "y\nMATCH\nz\n";
    assert Print("--") == "--\n";
    assert SeparatorAfter(o, 0, 2) && !SeparatorAfter(o, 1, 2);
    assert OutputUpTo(groups, o, 1) == ["x\nMATCH\ny\n", "--\n"];
  }

  /** Two single-line matches without context run together, with no separator. */
  lemma TwoGroupsWithoutContext()
    ensures GrepOutput(Literal(), "MATCH", "x\nMATCH\ny\nMATCH\nz", ContextOptions(0, 0))
      == ["MATCH\n", "MATCH\n"]
  {
    SplitSecondText();
    SecondTextDisplayPlain(ContextOptions(0, 0));
  }

  /** Overlapping windows are not merged: the shared line "y" is shown twice, with a separator between. */
  lemma OverlappingGroups()
    ensures GrepOutput(Literal(), "MATCH", "x\nMATCH\ny\nMATCH\nz", ContextOptions(1, 1))
      == ["x\nMATCH\ny\n", "--\n", "y\nMATCH\nz\n"]
  {
    SplitSecondText();
    SecondTextDisplayContext(ContextOptions(1, 1));
  }

  /** The lines x, MATCH, y, MATCH, z with a limit of one group. */
  lemma SecondTextFirstGroupOnly(o: GrepOptions)
    requires o == ContextOptions(1, 1).(maxCount := 1)
    ensures Output(Groups(["x", "MATCH", "y", "MATCH", "z"], Matcher(Literal(), "MATCH", o), o), o)
      == ["x\nMATCH\ny\n"]
  {
    var lines := ["x", "MATCH", "y", "MATCH", "z"];
    var test := Matcher(Literal(), "MATCH", o);
    SecondTextMatches(o);
    assert Anchors(lines, test, o.maxCount) == [1];
    var g := Group(lines, 1, o);
    assert g == ["x", "MATCH", "y"];
    var groups := Groups(lines, test, o);
    assert groups == GroupsOf(lines, [1], o);
    assert |groups| == 1 && groups[0] == g;
    assert groups == [g];
    assert Join(["x", "MATCH", "y"]) == "x\nMATCH\ny";
    assert PrintLines(g) == "x\nMATCH\ny\n";
    assert !SeparatorAfter(o, 0, 1);
  }

  /** With a limit of one group, scanning stops before the second match. */
  lemma LimitOfOne()
    ensures GrepOutput(Literal(), "MATCH", "x\nMATCH\ny\nMATCH\nz", ContextOptions(1, 1).(maxCount := 1))
      == ["x\nMATCH\ny\n"]
  {
    SplitSecondText();
    SecondTextFirstGroupOnly(ContextOptions(1, 1).(maxCount := 1));
  }

  /** The lines "a" and "MATCH" with numbering on. */
  lemma NumberedDisplay(o: GrepOptions)
    requires o == ContextOptions(0, 0).(lineNumber := true)
    ensures Output(Groups(["a", "MATCH"], Matcher(Literal(), "MATCH", o), o), o) == ["2:MATCH\n"]
  {
    var lines := ["a", "MATCH"];
    var test := Matcher(Literal(), "MATCH", o);
    assert !Contains("a", "MATCH") && Contains("MATCH", "MATCH");
    assert MatchesBelow(lines, test, 1) == [];
    assert MatchesBelow(lines, test, 2) == [1];
    assert Anchors(lines, test, o.maxCount) == [1];
    assert Decimal.ToString(2) == "2";
    var g := Group(lines, 1, o);
    assert WindowStart(1, 0) == 1 && WindowEnd(1, 0, 2) == 1;
    assert RenderLine(lines, 1, true) == "2" + ":" + "MATCH" == "2:MATCH";
    assert |g| == 1 && g[0] == RenderLine(lines, 1, true);
    assert g == ["2:MATCH"];
    var groups := Groups(lines, test, o);
    assert groups == GroupsOf(lines, [1], o);
    assert |groups| == 1 && groups[0] == g;
    assert groups == [g];
    assert Join(["2:MATCH"]) == "2:MATCH";
    assert PrintLines(g) == "2:MATCH\n";
  }

  /** Line numbers are 1-based: the match on the second line is shown as "2:". */
  lemma NumberedMatch()
    ensures GrepOutput(Literal(), "MATCH", "a\nMATCH", ContextOptions(0, 0).(lineNumber := true))
      == ["2:MATCH\n"]
  {
    var lines := ["a", "MATCH"];
    assert Join(lines) == "a\nMATCH" by {
      assert Join(lines[1..]) == "MATCH";
    }
    assert forall k :: 0 <= k < |lines| ==> NoNewline(lines[k]) by {
      assert NoNewline("a") && NoNewline("MATCH");
    }
    SplitJoin(lines);
    NumberedDisplay(ContextOptions(0, 0).(lineNumber := true));
  }

  /** The unified context fills both sides; an explicit positive side wins over it. */
  lemma ContextResolution()
    ensures var f := Flags(false, false, false, -1, 0, 0, 2, "--", false);
      Resolve(f).beforeContext == 2 && Resolve(f).afterContext == 2
    ensures var f := Flags(false, false, false, -1, 1, 0, 2, "--", false);
      Resolve(f).beforeContext == 1 && Resolve(f).afterContext == 2
  {
  }
}
