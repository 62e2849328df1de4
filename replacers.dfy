/**
 * Rule compilation (`getReplacers`): each change becomes a pattern string, a
 * flag string and the resolver as replacement template. The closure
 * `t => t.replace(new RegExp(pattern, flags), resolver)` it returns is
 * represented by these three strings; the Transform module runs them.
 */
module Replacers {
  import opened Escaping

  /** The host's declared type of a change. */
  datatype Change = Change(
    matcher: string,
    resolver: string,
    isCaseSensitive: bool,
    isWholeWords: bool,
    isUsingRegEx: bool)

  datatype Replacer = Replacer(pattern: string, flags: string, template: string)

  /** The regular-expression word-boundary assertion, backslash then b. */
  const WordBoundary: string := "\\b"

  /** Every occurrence (g), line anchors per line (m), case folded (i) unless case-sensitive. */
  function Flags(isCaseSensitive: bool): (f: string)
    ensures 'g' in f && 'm' in f
    ensures 'i' in f <==> !isCaseSensitive
    ensures |f| == if isCaseSensitive then 2 else 3
  {
    if isCaseSensitive then "gm" else "gim"
  }

  /**
   * The matcher verbatim in regex mode; in literal mode its escape, which holds
   * no bare special character and reads back as the matcher once the inserted
   * backslashes are deleted.
   */
  function CorePattern(c: Change): (p: string)
    ensures c.isUsingRegEx ==> p == c.matcher
    ensures !c.isUsingRegEx ==> WellEscaped(p) && Unescape(p) == c.matcher
    ensures !c.isUsingRegEx ==> |p| == |c.matcher| + CountSpecial(c.matcher)
  {
    if c.isUsingRegEx then c.matcher
    else
      EscapeWellEscaped(c.matcher);
      UnescapeEscape(c.matcher);
      Escape(c.matcher)
  }

  function Pattern(c: Change): string {
    if c.isWholeWords then WordBoundary + CorePattern(c) + WordBoundary else CorePattern(c)
  }

  predicate StartsWithBoundary(p: string) {
    |p| >= 2 && p[..2] == WordBoundary
  }

  /**
   * The pattern is the core wrapped in `\b` on both sides when whole-words is
   * set and the bare core otherwise; for a literal rule the leading `\b` is
   * present exactly when whole-words is set, since an escaped matcher never
   * starts with it.
   */
  lemma PatternWraps(c: Change)
    ensures c.isWholeWords ==>
      |Pattern(c)| == |CorePattern(c)| + 4 &&
      Pattern(c)[..2] == WordBoundary && Pattern(c)[|Pattern(c)| - 2..] == WordBoundary &&
      Pattern(c)[2..|Pattern(c)| - 2] == CorePattern(c)
    ensures !c.isWholeWords ==> Pattern(c) == CorePattern(c)
    ensures !c.isUsingRegEx ==> (StartsWithBoundary(Pattern(c)) <==> c.isWholeWords)
  {
    EscapeNeverStartsWithBoundary(c.matcher);
    var p := Pattern(c);
    if c.isWholeWords {
      assert p == WordBoundary + (CorePattern(c) + WordBoundary);
    }
  }

  /** The map callback of getReplacers. */
  function Compile(c: Change): Replacer {
    Replacer(Pattern(c), Flags(c.isCaseSensitive), c.resolver)
  }

  /** One replacer per change, in the same order, each with the change's resolver untouched. */
  function GetReplacers(changes: seq<Change>): (rs: seq<Replacer>)
    ensures |rs| == |changes|
    ensures forall i :: 0 <= i < |changes| ==>
      rs[i].pattern == Pattern(changes[i]) &&
      rs[i].flags == Flags(changes[i].isCaseSensitive) &&
      rs[i].template == changes[i].resolver
  {
    if changes == [] then [] else [Compile(changes[0])] + GetReplacers(changes[1..])
  }
}
