/**
  The effective grep options and the regular-expression flags derived from them.

  `Flags` is what the command line hands to the command handler of
  src/cli.ts; `Resolve` is the object literal that turns it into the
  `GrepOptions` record every search uses.
 */
module Options {

  /** The raw option values the command handler receives. */
  datatype Flags = Flags(
    ignoreCase: bool,
    noIgnoreCase: bool,
    lineNumber: bool,
    maxCount: int,
    beforeContext: int,
    afterContext: int,
    context: int,
    groupSeparator: string,
    noGroupSeparator: bool)

  /** The resolved options: a negative `maxCount` means no limit. */
  datatype GrepOptions = GrepOptions(
    ignoreCase: bool,
    lineNumber: bool,
    maxCount: int,
    beforeContext: int,
    afterContext: int,
    groupSeparator: string,
    noGroupSeparator: bool)

  /** The effective size of one side of the context: a positive explicit value wins, otherwise the unified one. */
  function EffectiveSide(explicit: int, context: int): (n: int)
    ensures explicit > 0 ==> n == explicit
    ensures explicit <= 0 ==> n == context
  {
    if explicit > 0 then explicit else context
  }

  /** The options a search runs with. */
  function Resolve(f: Flags): (o: GrepOptions)
    ensures o.ignoreCase <==> f.ignoreCase && !f.noIgnoreCase
    ensures o.beforeContext == EffectiveSide(f.beforeContext, f.context)
    ensures o.afterContext == EffectiveSide(f.afterContext, f.context)
    ensures o.lineNumber == f.lineNumber && o.maxCount == f.maxCount
    ensures o.groupSeparator == f.groupSeparator && o.noGroupSeparator == f.noGroupSeparator
  {
    GrepOptions(
      ignoreCase := if f.noIgnoreCase then false else f.ignoreCase,
      lineNumber := f.lineNumber,
      maxCount := f.maxCount,
      beforeContext := EffectiveSide(f.beforeContext, f.context),
      afterContext := EffectiveSide(f.afterContext, f.context),
      groupSeparator := f.groupSeparator,
      noGroupSeparator := f.noGroupSeparator)
  }

  /** The flags the pattern is compiled with: always global, case-insensitive exactly when asked. */
  function RegexFlags(ignoreCase: bool): (flags: string)
    ensures |flags| == (if ignoreCase then 2 else 1) && flags[0] == 'g'
    ensures 'i' in flags <==> ignoreCase
    ensures forall k :: 0 <= k < |flags| ==> flags[k] in {'g', 'i'}
  {
    if ignoreCase then "gi" else "g"
  }

  /** `createRegexFlags`: start from "g" and append "i" when case is ignored. */
  method CreateRegexFlags(options: GrepOptions) returns (regexFlags: string)
    ensures regexFlags == RegexFlags(options.ignoreCase)
  {
    regexFlags := "g";
    if options.ignoreCase {
      regexFlags := regexFlags + "i";
    }
  }

  /** Whether the options ask for a separator between groups at all. */
  predicate SeparatorsOn(o: GrepOptions): (on: bool)
    ensures o.noGroupSeparator ==> !on
    ensures o.beforeContext <= 0 && o.afterContext <= 0 ==> !on
  {
    !o.noGroupSeparator && (o.beforeContext > 0 || o.afterContext > 0)
  }

  /**
    A side's effective context is positive exactly when its explicit value or
    the unified value is; an explicit positive value makes the unified value irrelevant.
   */
  lemma ContextPrecedence(f: Flags, c: int)
    ensures Resolve(f).beforeContext > 0 <==> f.beforeContext > 0 || f.context > 0
    ensures Resolve(f).afterContext > 0 <==> f.afterContext > 0 || f.context > 0
    ensures f.beforeContext > 0 ==> Resolve(f.(context := c)).beforeContext == Resolve(f).beforeContext
    ensures f.afterContext > 0 ==> Resolve(f.(context := c)).afterContext == Resolve(f).afterContext
    ensures f.beforeContext <= 0 && f.afterContext <= 0 ==>
      Resolve(f).beforeContext == Resolve(f).afterContext == f.context
  {
  }

  /** From the raw flags: separators are on unless suppressed, when some context (explicit or unified) is positive. */
  lemma SeparatorsOnFromFlags(f: Flags)
    ensures SeparatorsOn(Resolve(f)) <==>
      !f.noGroupSeparator && (f.beforeContext > 0 || f.afterContext > 0 || f.context > 0)
  {
  }

  /** `--no-ignore-case` always compiles a case-sensitive pattern, whatever `-i` says. */
  lemma NoIgnoreCaseWins(f: Flags)
    requires f.noIgnoreCase
    ensures RegexFlags(Resolve(f).ignoreCase) == "g"
  {
  }
}
