# effect-grep: a verified model of the search core

effect-grep is a small line-oriented search tool. For each file it reads, it
splits the content into lines, tests every line against a regular
expression, and for every matching line (the *anchor*) displays a *group*:
the anchor with up to `beforeContext` lines before it and `afterContext`
lines after it, optionally numbered. Groups are displayed in line order, at
most `maxCount` of them, with a separator line between consecutive groups
when context was asked for.

This project models that core in Dafny and proves what it promises:

- `lines.dfy` (module `Lines`): `content.split("\n")` and `lines.join("\n")`,
  with the line count, the absence of terminators in lines, and both
  round trips.
- `decimal.dfy` (module `Decimal`): the decimal numeral `${j + 1}` used for
  line numbers, with a parser proving it reads back.
- `options.dfy` (module `Options`): the raw flags, the resolved
  `GrepOptions` record (context precedence, `--no-ignore-case`), and
  `createRegexFlags`.
- `grep.dfy` (module `Grep`): the specification of a search as functions
  (`MatchesBelow`, `Anchors`, `Group`, `Groups`, `Output`, `GrepOutput`) and
  the routine `Grep` itself, written with the source's loops (the scan with
  its early exit, the two inner loops around the anchor, the display loop)
  and proved to return exactly `GrepOutput`.
- `properties.dfy` (module `GrepProperties`): the properties of the
  specification: which lines become anchors, window bounds and sizes,
  1-based numbering, the separator rule, and when nothing is displayed.
- `scenarios.dfy` (module `Scenarios`): concrete searches worked through
  the specification, with a literal-substring test standing in for the
  regular-expression engine.

How the environment is represented:

- The regular-expression engine is a parameter `engine(pattern, flags, line): bool`
  (type `Grep.Engine`): whether `line.match(new RegExp(pattern, flags))` is
  non-null. A `g` flag does not make `String.prototype.match` stateful, so a
  pure function is faithful. `Grep.Matcher` fixes the pattern and the flags
  derived from the options.
- The terminal is the sequence of texts the routine would display, one entry
  per `display` call: `Grep.PrintLines` (a group's lines joined by `"\n"`,
  then `"\n"`) and `Grep.Print` (the separator, then `"\n"`).

Behaviour of src/cli.ts the model keeps, some of it easy to get wrong:

- Windows that overlap are never merged: each anchor gets its own group and a
  shared context line is displayed once per group.
- The separator rule is positional: after every group but the last, when
  `noGroupSeparator` is off and one of the effective context sizes is
  positive. It does not look at whether groups touch.
- The group limit is tested before each line is inspected, so scanning stops
  as soon as `maxCount` groups exist; a negative `maxCount` is no limit and
  zero displays nothing.
- A trailing `"\n"` yields an empty last line, and `"\r"` stays part of the
  line.
- Context sizes are plain integers. A non-positive explicit size falls back to
  the unified `context` value; a negative effective size shows no lines on
  that side (the inner loops do not run) and does not turn separators on.

Further facts about src/cli.ts that the model follows:

- The pattern is compiled inside `grep` (src/cli.ts:54), once for each file's
  content and only after that file has been read, so a malformed pattern
  throws on the first file read rather than before any input is read.
- Context sizes are any integers (src/cli.ts:10-11, 171-172); nothing
  rejects a negative value, with the effects listed above.

## Model

| member | source | states |
|---|---|---|
| `Lines.Split` | src/cli.ts:51 | splitting always yields at least one line |
| `Lines.SplitCount` | src/cli.ts:51 | the number of lines is the number of `'\n'` in the content plus one |
| `Lines.SplitNoNewline` | src/cli.ts:51 | no line produced by splitting contains `'\n'` |
| `Lines.Join` | src/cli.ts:37 | the joined text starts with the first line, and a `'\n'` follows it when there is a second; its full meaning is the pair of round trips `Lines.JoinSplit` and `Lines.SplitJoin` |
| `Lines.JoinSplit` | src/cli.ts:51 | joining the lines with `"\n"` gives back the content exactly, including an empty last line after a trailing `'\n'` |
| `Lines.SplitJoin` | src/cli.ts:51 | splitting the join of a non-empty list of terminator-free lines gives back that list |
| `Decimal.ToString` | src/cli.ts:71 | a line number is rendered as a canonical numeral: digits only, no leading zero, no `':'` |
| `Decimal.ParseToString` | src/cli.ts:71 | the numeral of `n` reads back as `n`, so distinct line numbers render distinctly |
| `Decimal.ToStringParse` | src/cli.ts:71 | every canonical numeral is the rendering of its value |
| `Options.Flags` | src/cli.ts:154-166 | the raw values the command handler receives (no contract; a datatype) |
| `Options.GrepOptions` | src/cli.ts:6-14 | the resolved options record, with a negative `maxCount` meaning no limit (no contract; a datatype) |
| `Options.EffectiveSide` | src/cli.ts:171-172 | a positive explicit context size wins, otherwise the unified `context` value is used |
| `Options.Resolve` | src/cli.ts:167-175 | the resolved `ignoreCase` holds exactly when the delivered `f.ignoreCase` is true and `f.noIgnoreCase` is false; both context sizes follow the precedence rule; the other options pass through unchanged |
| `Options.RegexFlags` | src/cli.ts:40-47 | the flags are one character long, `g`, when case is respected, and two long, starting with `g`, made of `g` and `i` and containing `i`, when it is ignored: exactly `"g"` or `"gi"`, never a repeated flag |
| `Options.CreateRegexFlags` | src/cli.ts:40-47 | the imperative flag builder returns exactly `RegexFlags(ignoreCase)` |
| `Options.SeparatorsOn` | src/cli.ts:97-98 | separators are off when suppressed and off when neither context size is positive; stated over the raw flags, both directions, by `Options.SeparatorsOnFromFlags` |
| `Options.ContextPrecedence` | src/cli.ts:171-172 | an effective side is positive iff its explicit value or the unified value is; an explicit positive side is unaffected by any unified value; with no explicit sides both equal the unified value |
| `Options.SeparatorsOnFromFlags` | src/cli.ts:96-98 | in terms of the raw flags, separators are enabled iff not suppressed and some explicit or unified context size is positive |
| `Options.NoIgnoreCaseWins` | src/cli.ts:168 | with `--no-ignore-case` the pattern is compiled with flags `"g"` only, whatever `-i` says |
| `Grep.Matcher` | src/cli.ts:54-64 | the line test is the engine applied to the pattern with flags `"gi"` when case is ignored and `"g"` otherwise |
| `Grep.MatchesBelow` | src/cli.ts:56-64 | every index collected while scanning the first `i` lines is below `i` |
| `Grep.Limit` | src/cli.ts:57-58 | the kept matches are a prefix of all matches: all of them when `maxCount < 0`, otherwise `min(maxCount, matches)` of them |
| `Grep.Anchors` | src/cli.ts:56-64 | every anchor is the index of an existing line |
| `Grep.WindowStart` | src/cli.ts:65 | the window starts at or before the anchor, at most `max(0, before)` lines before it, and exactly that many unless it is clipped at line 0 |
| `Grep.WindowEnd` | src/cli.ts:66 | the window ends at or after the anchor and within the file, at most `max(0, after)` lines after it, and exactly that many unless it is clipped at the last line |
| `Grep.RenderLine` | src/cli.ts:70-86 | without numbering a line is shown unchanged; with numbering it is longer and ends with the line unchanged (the prefix is detailed by `GrepProperties.RenderedLineNumber`) |
| `Grep.RenderRange` | src/cli.ts:69-86 | the rendered range `[a, b)` has `max(0, b - a)` lines and its `t`-th entry is line `a + t` rendered |
| `Grep.Group` | src/cli.ts:61-87 | a group has `end - start + 1` lines and holds the anchor, rendered, at position `i - start`; `GrepProperties.GroupWindow` gives the whole window |
| `Grep.GroupsOf` | src/cli.ts:89 | one group is produced per anchor |
| `Grep.Groups` | src/cli.ts:56-90 | a search builds no more groups than there are lines, and at most `maxCount` when it is non-negative; `GrepProperties.GroupCount` relates the groups to the anchors |
| `Grep.PrintLines` | src/cli.ts:34-38 | a displayed block ends with `'\n'` and begins with the group's first line; `GrepProperties.BlockText` shows that it splits back into the group |
| `Grep.Print` | src/cli.ts:28-32 | a displayed separator is its text followed by exactly one `'\n'` |
| `Grep.SeparatorAfter` | src/cli.ts:96-99 | a separator follows group `k` of `count` exactly when separators are on and `k` is not the last group; otherwise it is suppressed, context is not positive, or `k` is the last; `GrepProperties.OutputShape` gives the layout |
| `Grep.OutputUpTo` | src/cli.ts:93-103 | after `k` groups the display has between `k` and `2k` entries |
| `Grep.Output` | src/cli.ts:93-103 | the display has at least one entry per group and fewer than twice as many (no separator after the last); `GrepProperties.OutputShape` gives the exact shape |
| `Grep.LimitReached` | src/cli.ts:57-58 | once `maxCount` matches have been found, scanning further lines changes nothing: the anchors are exactly those matches |
| `Grep.RenderGroup` | src/cli.ts:61-87 | the two inner loops and the anchor push build exactly the group for the anchor, for every value of the context sizes |
| `Grep.DisplayGroups` | src/cli.ts:93-103 | the display loop produces exactly `Output(groups, options)` |
| `Grep.GrepOutput` | src/cli.ts:49-104 | a search displays nothing when `maxCount` is 0, and fewer than two entries per line of the content |
| `Grep.Grep` | src/cli.ts:49-104 | the whole routine (split, compile flags, scan with early exit, render, display) displays exactly `GrepOutput(engine, pattern, content, options)` |
| `GrepProperties.MatchesBelowExact` | src/cli.ts:56-64 | an index is collected iff it is below the bound and its line matches; collected indices strictly increase |
| `GrepProperties.AnchorsAreFirstMatches` | src/cli.ts:56-64 | anchors are a prefix of all matches in line order: all of them when `maxCount < 0`, otherwise `min(maxCount, matches)` of them; each anchor matches; a matching line left out comes after every anchor and only when the limit was reached |
| `GrepProperties.GroupCount` | src/cli.ts:56-59 | at most `maxCount` groups when it is non-negative, none when it is 0, one per matching line when it is negative; group `k` is the group of anchor `k` |
| `GrepProperties.GroupWindow` | src/cli.ts:65-87 | a group is lines `start..end` in order with `0 <= start <= i <= end <= last`, of length `(i - start) + 1 + (end - i)`, the anchor at position `i - start`; for non-negative sizes `start = max(0, i - B)`, `end = min(last, i + A)` and the length is `min(i, B) + 1 + min(last - i, A)` |
| `GrepProperties.NumberingStable` | src/cli.ts:69-86 | a line shown in two groups is rendered identically in both, whatever their windows |
| `GrepProperties.RenderedLineNumber` | src/cli.ts:70-86 | with numbering on, a rendered line is the numeral of `j + 1`, a `':'` (the first one), then the line unchanged, and the numeral reads back as `j + 1`; with numbering off it is the line unchanged |
| `GrepProperties.OutputShape` | src/cli.ts:93-103 | the display is the blocks in order; with separators enabled and `n > 0` groups it has `2n - 1` entries with a separator between every two consecutive blocks; otherwise exactly `n` entries and no separator |
| `GrepProperties.BlockText` | src/cli.ts:28-38 | a block splits back into the group's lines plus an empty line (lines joined by `"\n"` then `"\n"`); a separator entry is the separator text then `'\n'` |
| `GrepProperties.GroupBlock` | src/cli.ts:61-94 | every line of a group a search builds is free of `'\n'` (split lines have none, and a numeral and `':'` add none), so the displayed block splits back into exactly the group's lines |
| `GrepProperties.NothingDisplayed` | src/cli.ts:49-104 | nothing is displayed for a content iff `maxCount` is 0 or no line matches |
| `GrepProperties.PlainSearch` | src/cli.ts:49-104 | with no context, numbering or limit, the display is each matching line followed by `"\n"`, in line order |
| `Scenarios.TrailingNewline` | src/cli.ts:51 | `"a\nb\n"` splits into `"a"`, `"b"` and an empty last line |
| `Scenarios.OneGroupWithContext` | src/cli.ts:49-104 | one match with one line of context each side displays `"b\nMATCH\nc\n"` |
| `Scenarios.TwoGroupsWithoutContext` | src/cli.ts:96-103 | two matches without context display two single-line blocks and no separator |
| `Scenarios.OverlappingGroups` | src/cli.ts:64-103 | two overlapping windows are displayed as two groups, the shared line twice, with `"--"` between them |
| `Scenarios.LimitOfOne` | src/cli.ts:57-58 | with `maxCount = 1` only the first of two matches is displayed |
| `Scenarios.NumberedMatch` | src/cli.ts:76-77 | a match on the second line is displayed as `"2:MATCH"` |
| `Scenarios.ContextResolution` | src/cli.ts:171-172 | `context = 2` fills both sides; with `before = 1` as well, before is 1 and after is 2 |

## Left out

- The regular-expression engine (`new RegExp`, `line.match`): a foreign library, abstracted as the `engine` parameter. A pattern that fails to compile makes `new RegExp` throw inside `grep`, on the first file that was read; that error path is not modelled.
- `readFile` and the file system service: I/O. The model starts from the content string. (`fs.exists` returns an effect, not a boolean, so the null check in `readFile` is not a real existence test.)
- `print`, `printLines` and `Terminal.display`: modelled only as the texts they would display, collected in order; the Effect generator plumbing is not modelled.
- `program`, the loop over files and its "File not found" message: I/O sequencing around `grep`.
- The `@effect/cli` declarations of options and arguments, their defaults and aliases, and `Command.run` with the version banner: argument parsing by a library. `Options.Flags` stands for the values they deliver.
- src/bun.ts (runtime entry point) and bunup.config.ts (build configuration): no logic.
- The default value of `--no-ignore-case`: src/cli.ts:122 declares it with `Options.withDefault(true)`; the model takes that outer default to be hidden by the boolean option's built-in default of false, so an absent `--no-ignore-case` arrives in `Options.Flags` as false and `-i` takes effect. The option library is not part of this model.
- `Decimal.ToString`: renders every natural number in plain decimal; JavaScript switches to exponent notation from 10^21 on, a line count no file reaches.
- Strings are sequences of Dafny characters; JavaScript's UTF-16 code units and surrogate pairs are not modelled (splitting on `'\n'` is unaffected).
