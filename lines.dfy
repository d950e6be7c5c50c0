/**
  Splitting a file's content into lines and joining lines back together.

  `Split` is `content.split("\n")` and `Join` is `lines.join("\n")` of
  src/cli.ts: the terminator is the single character '\n', a "\r" before it
  stays part of the line, and a trailing '\n' yields an empty last line.
 */
module Lines {

  /** The number of occurrences of `c` in `s`. */
  function Count(s: string, c: char): nat
  {
    if |s| == 0 then 0 else (if s[0] == c then 1 else 0) + Count(s[1..], c)
  }

  /** A line as produced by `Split`: it holds no terminator. */
  predicate NoNewline(line: string)
  {
    '\n' !in line
  }

  /** `content.split("\n")`: the fields between the terminators, never empty. */
  function Split(s: string): (lines: seq<string>)
    ensures |lines| >= 1
  {
    if |s| == 0 then [""]
    else
      var rest := Split(s[1..]);
      if s[0] == '\n' then [""] + rest
      else [[s[0]] + rest[0]] + rest[1..]
  }

  /** `lines.join("\n")`: one terminator between consecutive lines, none after the last. */
  function Join(lines: seq<string>): (s: string)
    ensures |lines| >= 1 ==> lines[0] <= s
    ensures |lines| >= 2 ==> |s| > |lines[0]| && s[|lines[0]|] == '\n'
  {
    if |lines| == 0 then ""
    else if |lines| == 1 then lines[0]
    else lines[0] + "\n" + Join(lines[1..])
  }

  /** Splitting yields one line more than there are terminators. */
  lemma {:induction false} SplitCount(s: string)
    ensures |Split(s)| == Count(s, '\n') + 1
  {
    if |s| > 0 {
      SplitCount(s[1..]);
    }
  }

  /** No line produced by splitting contains a terminator. */
  lemma {:induction false} SplitNoNewline(s: string)
    ensures forall k :: 0 <= k < |Split(s)| ==> NoNewline(Split(s)[k])
  {
    if |s| > 0 {
      SplitNoNewline(s[1..]);
      var rest := Split(s[1..]);
      if s[0] != '\n' {
        assert NoNewline(rest[0]);
        assert NoNewline([s[0]] + rest[0]) by {
          assert [s[0]] + rest[0] == [s[0]] + rest[0][..];
        }
        var lines := Split(s);
        assert lines == [[s[0]] + rest[0]] + rest[1..];
        forall k | 0 <= k < |lines| ensures NoNewline(lines[k]) {
          if k > 0 { assert lines[k] == rest[k]; }
        }
      } else {
        var lines := Split(s);
        forall k | 0 <= k < |lines| ensures NoNewline(lines[k]) {
          if k > 0 { assert lines[k] == rest[k - 1]; }
        }
      }
    }
  }

  /** Prefixing the first line prefixes the joined text. */
  lemma {:induction false} JoinPrefixFirst(x: string, lines: seq<string>)
    requires |lines| >= 1
    ensures Join([x + lines[0]] + lines[1..]) == x + Join(lines)
  {
    var ls := [x + lines[0]] + lines[1..];
    if |lines| > 1 {
      assert ls[1..] == lines[1..];
      var tail := Join(lines[1..]);
      assert Join(ls) == (x + lines[0]) + "\n" + tail == x + (lines[0] + "\n" + tail);
    }
  }

  /** Joining the lines of a text gives back the text exactly. */
  lemma {:induction false} JoinSplit(s: string)
    ensures Join(Split(s)) == s
  {
    if |s| > 0 {
      var rest := Split(s[1..]);
      JoinSplit(s[1..]);
      if s[0] == '\n' {
        assert ([""] + rest)[1..] == rest;
      } else {
        JoinPrefixFirst([s[0]], rest);
      }
    }
  }

  /** Splitting a text that starts with a line free of terminators. */
  lemma {:induction false} SplitAfterLine(a: string, t: string)
    requires NoNewline(a)
    ensures Split(a + t) == [a + Split(t)[0]] + Split(t)[1..]
  {
    if |a| > 0 {
      assert (a + t)[1..] == a[1..] + t;
      assert NoNewline(a[1..]) by {
        assert forall k :: 0 <= k < |a[1..]| ==> a[1..][k] == a[k + 1];
      }
      SplitAfterLine(a[1..], t);
      assert [a[0]] + (a[1..] + Split(t)[0]) == a + Split(t)[0];
    } else {
      var ts := Split(t);
      assert a + t == t;
      assert a + ts[0] == ts[0];
      assert ts == [ts[0]] + ts[1..];
    }
  }

  /** Splitting the join of terminator-free lines gives back those lines. */
  lemma {:induction false} SplitJoin(lines: seq<string>)
    requires |lines| >= 1
    requires forall k :: 0 <= k < |lines| ==> NoNewline(lines[k])
    ensures Split(Join(lines)) == lines
  {
    if |lines| == 1 {
      SplitAfterLine(lines[0], "");
      assert lines[0] + "" == lines[0];
    } else {
      var tail := Join(lines[1..]);
      SplitJoin(lines[1..]);
      assert Join(lines) == lines[0] + ("\n" + tail);
      SplitAfterLine(lines[0], "\n" + tail);
      assert ("\n" + tail)[1..] == tail;
      assert Split("\n" + tail) == [""] + lines[1..];
      assert lines[0] + "" == lines[0];
    }
  }
}
