/**
 * The filter and drawing policy shared by the text renderer and the tree builder:
 * exclusion patterns, the hidden-name rule, the extension filter and the tree connectors.
 */
module Policy {
  import opened Strings
  import opened FileSystem

  /** What `filepath.Match(pattern, name)` reports: a match, no match, or a malformed pattern. */
  datatype MatchResult = Matched | Unmatched | BadPattern

  /** The glob matcher the engine is given, applied as matcher(pattern, name). */
  type Matcher = (string, string) -> MatchResult

  /** The options one traversal runs with (colour settings are not modelled). */
  datatype Options = Options(
    extFilter: string,
    excludePatterns: seq<string>,
    matcher: Matcher,
    sortBy: string,
    order: string,
    includeHidden: bool,
    maxDepth: int)

  /** `isExcluded`: the patterns are tried in order; one that reports an error is skipped, the
      first that matches excludes the name. */
  function IsExcluded(name: string, patterns: seq<string>, matcher: Matcher): (r: bool)
    ensures r <==> exists i :: 0 <= i < |patterns| && matcher(patterns[i], name) == Matched
    ensures patterns == [] ==> !r
    decreases |patterns|
  {
    if patterns == [] then false
    else
      match matcher(patterns[0], name)
      case BadPattern => IsExcluded(name, patterns[1..], matcher)
      case Matched => true
      case Unmatched => IsExcluded(name, patterns[1..], matcher)
  }

  /** The hidden-name rule: a name starting with "." is shown only when hidden entries are included. */
  predicate ShowsHidden(name: string, includeHidden: bool) {
    includeHidden || !HasPrefix(name, ".")
  }

  /** The extension filter: an empty filter admits every file, otherwise the name must end with it. */
  predicate PassesExtFilter(name: string, extFilter: string) {
    extFilter == "" || HasSuffix(name, extFilter)
  }

  /** An entry survives the hidden-name rule and the exclusion patterns (both paths test these
      two first, for directories and files alike). */
  predicate Visible(e: Entry, opts: Options) {
    ShowsHidden(e.name, opts.includeHidden) && !IsExcluded(e.name, opts.excludePatterns, opts.matcher)
  }

  /** The depth check at the top of `traverse` and `buildTree`: -1 means unlimited. */
  predicate DepthReached(opts: Options, depth: int) {
    opts.maxDepth != -1 && depth >= opts.maxDepth
  }

  /** The hidden-name rule, character by character: a name is hidden exactly when hidden
      entries are not included and its first character is '.'. */
  lemma HiddenRule(name: string, includeHidden: bool)
    ensures ShowsHidden(name, includeHidden) <==> includeHidden || name == [] || name[0] != '.'
  {
    if name != [] {
      assert name[..1] == [name[0]];
    }
  }

  /** A file passes the extension filter exactly when the filter is empty or the name is some
      stem followed by the filter. */
  lemma ExtFilterRule(name: string, extFilter: string)
    ensures PassesExtFilter(name, extFilter) <==> extFilter == "" || exists stem :: name == stem + extFilter
  {
    if HasSuffix(name, extFilter) {
      var stem := name[..|name| - |extFilter|];
      assert name == stem + extFilter;
    }
    if exists stem :: name == stem + extFilter {
      var stem :| name == stem + extFilter;
      assert name[|stem|..] == extFilter;
    }
  }

  /** A depth limit of -1 never cuts the walk, and once a level is cut every deeper level is. */
  lemma DepthLimitRule(opts: Options, depth: int, deeper: int)
    ensures opts.maxDepth == -1 ==> !DepthReached(opts, depth)
    ensures DepthReached(opts, depth) && depth <= deeper ==> DepthReached(opts, deeper)
    ensures opts.maxDepth >= 0 && 0 <= depth < opts.maxDepth ==> !DepthReached(opts, depth)
  {
  }

  /** `getTreePrefix`: the connector drawn before an entry. */
  function TreePrefix(isLast: bool): (r: string)
    ensures |r| == 4 && r[1..] == "── "
    ensures r[0] == (if isLast then '└' else '├')
  {
    if isLast then "└── " else "├── "
  }

  /** `getIndent`: what the entries below a directory add to its prefix. */
  function Indent(isLast: bool): (r: string)
    ensures |r| == 4 && r[1..] == "   "
    ensures r[0] == (if isLast then ' ' else '│')
  {
    if isLast then "    " else "│   "
  }
}
